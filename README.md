# Pineapple UI design tokens and component rules, in Dafny

This project models the core of Pineapple UI, a React component library. The
model covers two parts.

**The design-token pipeline** (`packages/tokens`):

- the token schema: six colour roles of eleven shades, spacing, typography,
  radii, shadows and transitions;
- the checked invariants: every colour matches the `oklch(L C H)` pattern,
  and spacing sits on the 4px grid;
- `serializeTokens` / `deserializeTokens`, the JSON envelope;
- `tokensToCSS`, the `:root` custom-property block;
- `toTailwindTheme`, the relabelling into Tailwind's field names;
- the dark palette;
- `generateDarkModeCSS`, the `.dark` block.

**The rules of the components and hooks:**

- the library's error classes;
- `FormField`'s ids and ARIA wiring;
- `useControllableState`'s controlled and uncontrolled state machine;
- the layouts of `Breadcrumb` and `Stack`;
- `Toast`'s role and auto-dismiss;
- `Avatar`'s image, initials and silhouette fallback;
- `Button`'s disabled, spinner and icon rules;
- the ARIA flags of `Input` and `Textarea`;
- the icon factory and the generic `Icon`.

How the source is represented:

- Records are datatypes whose `Entries()` list their members in
  `Object.entries` order: integer-like keys (shades and spacing steps)
  ascending, the other keys in property-creation order, taken to be the
  order the interfaces declare them.
- The two CSS generators are methods that push lines in loops. Each is
  proved equal to a function that gives the whole line list, and the lemmas
  are stated about those functions.
- The hook and the avatar keep state across renders, so they are classes.
- Rendering is a function from props to a record of the attributes and
  children that matter.

Points where the code and its documentation differ (the model follows the
code):

- `deserializeTokens` performs no version check. Any envelope yields its
  `tokens` field (`Serializer.AnyVersionAccepted`).
- The failures of `deserializeTokens` are text that does not parse and also
  the document `null`. Reading `.tokens` of `null` throws a `TypeError`
  (`Serializer.DeserializeFailures`).
- With both an error and helper text, `FormField`'s `aria-describedby`
  still lists the helper id, but no element carries that id
  (`FormField.DescribedByTargets`).
- `React.Children.toArray` already drops `true`. In the children list of
  `Breadcrumb` and `Stack`, "truthy" therefore means truthy and not a
  boolean (`Children.ChildArrayTruthy`).
- `Input` and `Textarea` take `required` out of their props. The native
  `required` attribute is never set; only `aria-required` carries it.
- In `Button`, an icon given as the number `0` is the value of the
  `icon && <span/>` expression, and React renders it as the text `0`
  (`Button.Button`, the `Stray` slot).
- An avatar's image-error flag is never cleared. After one failed load, a
  new `src` on the same instance still shows no image
  (`Avatar.Avatar.HandleImageError`).

## Model

| member | source | states |
|---|---|---|
| Tokens.SchemaShape | packages/tokens/src/types.ts:4-119 | a token set has six colour roles of 11 shades, 11 spacing steps, 2 font families, 7 sizes, 4 weights, 3 line heights, 6 radii, 3 shadows and 3 transitions |
| Tokens.ScaleKeys | packages/tokens/src/types.ts:29-41 | entry i of every scale is shade key i (50 … 950) with the i-th value |
| Tokens.ScaleOf | packages/tokens/src/types.ts:29-41 | a scale built from eleven values lists exactly those values, lightest first |
| Tokens.ReadDecimal | packages/tokens/src/theme.test.ts:35 | a channel read by `\d+(\.\d+)?` is well formed and consumes a non-empty prefix of the input |
| Tokens.ReadFraction | packages/tokens/src/theme.test.ts:35 | the optional `.digits` part keeps the channel well formed and consumes at most the rest |
| Tokens.ReadChannelAndSpace | packages/tokens/src/theme.test.ts:35 | a channel followed by `\s+` is well formed and leaves a strictly shorter rest |
| Tokens.ParseOklch | packages/tokens/src/theme.test.ts:35 | whatever the oklch pattern accepts has three well-formed channels |
| Tokens.ReadChannels | packages/tokens/src/theme.test.ts:35 | the body after `oklch(` yields three well-formed channels when it matches |
| Tokens.ReadLastChannel | packages/tokens/src/theme.test.ts:35 | the third channel must be followed by `)` and the end of the string |
| Tokens.ReadDecimalShow | packages/tokens/src/theme.test.ts:35 | a written channel followed by a non-digit, non-point character reads back as the same channel and length |
| Tokens.ReadWholeShow | packages/tokens/src/theme.test.ts:35 | a channel without a fraction reads back whole |
| Tokens.ReadFractionShow | packages/tokens/src/theme.test.ts:35 | a channel with a fraction reads back with both parts |
| Tokens.ReadChannelAndSpaceShow | packages/tokens/src/theme.test.ts:35 | a written channel and one space read back as that channel, leaving the rest |
| Tokens.ReadLastChannelShow | packages/tokens/src/theme.test.ts:35 | a written channel and `)` read back as that channel |
| Tokens.ReadChannelsShow | packages/tokens/src/theme.test.ts:35 | three written channels read back as the same colour |
| Tokens.ParsePrefixed | packages/tokens/src/theme.test.ts:35 | matching `oklch(` + body is matching the body |
| Tokens.ParseShow | packages/tokens/src/theme.test.ts:34-51 | round trip: every well-formed colour, written out, matches the oklch pattern and gives back its channels |
| Tokens.PixelSpacing | packages/tokens/src/theme.test.ts:14-25 | in exact integer arithmetic `parseInt("<n>px", 10)` is n, and `<n>px` passes the 4px-grid check exactly when n is a multiple of 4 (JavaScript's double agrees below 2^53) |
| Serializer.ReadLeavesEntries | packages/tokens/src/serializer.ts:13-27 | a record's JSON object reads back as its values |
| Serializer.ReadMembersOf | packages/tokens/src/serializer.ts:13-27 | an object's members read back as the values it was built from |
| Serializer.ReadScaleJs | packages/tokens/src/serializer.ts:13-27 | a colour scale's JSON form reads back as the same scale |
| Serializer.ReadColorsJs | packages/tokens/src/serializer.ts:13-27 | the colours' JSON form reads back as the same six scales |
| Serializer.ReadTypographyJs | packages/tokens/src/serializer.ts:13-27 | the typography's JSON form reads back as the same four records |
| Serializer.ReadThemeJs | packages/tokens/src/serializer.test.ts:39-46 | a token set's JSON form reads back as the same token set: no field is lost or merged |
| Serializer.SerializeEnvelope | packages/tokens/src/serializer.ts:3-19 | the document is an envelope whose `version` is `1.0.0` and whose `tokens` is the input's JSON form |
| Serializer.LastMember | packages/tokens/src/serializer.ts:25-26 | a member lookup finds nothing exactly when no member has the key, and a member with that key otherwise |
| Serializer.LastMemberIsLast | packages/tokens/src/serializer.ts:25-26 | the member found is the last one with the key, as `JSON.parse` keeps the last duplicate: no later member has that key |
| Serializer.DuplicateTokensLastWins | packages/tokens/src/serializer.ts:24-27 | a document naming `tokens` twice deserialises to the second value |
| Serializer.RoundTrip | packages/tokens/src/serializer.test.ts:14-19 | deserialising a serialised token set gives its JSON form, which reads back as the same token set |
| Serializer.AnyVersionAccepted | packages/tokens/src/serializer.ts:24-27 | an envelope of any version deserialises to its `tokens` field |
| Serializer.DeserializeFailures | packages/tokens/src/serializer.ts:25-26 | deserialising fails exactly on unparsable text (parse error) and on the document `null` (reading `.tokens` of null) |
| Serializer.ColorDecls | packages/tokens/src/serializer.ts:36-40 | the first n roles give 11·n colour lines |
| Serializer.PushDecls | packages/tokens/src/serializer.ts:43-74 | one `for…of` loop appends exactly the declarations of its record, in order |
| Serializer.PushColorDecls | packages/tokens/src/serializer.ts:36-40 | the nested colour loop appends the colour declarations role-major, shade-minor |
| Serializer.ColorDeclsStep | packages/tokens/src/serializer.ts:36-40 | one more role appends that role's eleven declarations |
| Serializer.TokensToCSS | packages/tokens/src/serializer.ts:32-78 | the CSS is the `:root` line list joined with newlines |
| Serializer.IndexOf | packages/tokens/src/serializer.ts:77 | the first occurrence of a character, or the length when there is none |
| Serializer.Split | packages/tokens/src/serializer.ts:77 | splitting text at a character gives at least one part |
| Serializer.SplitJoin | packages/tokens/src/serializer.ts:77 | splitting lines that are joined with a character they do not contain gives the lines back |
| Serializer.RootLinesShape | packages/tokens/src/serializer.ts:32-78 | the block has 107 lines: `:root {` first, `}` last |
| Serializer.ColorDeclsAt | packages/tokens/src/serializer.ts:36-40 | colour line 11·r + k declares role r, shade k |
| Serializer.ColorLine | packages/tokens/src/serializer.ts:36-40 | line 1 + 11·r + k of the block is `  --color-<role r>-<shade k>: <value>;` |
| Serializer.ColorBlock | packages/tokens/src/serializer.ts:36-40 | lines 1 to 66 are the 66 colour declarations |
| Serializer.GroupOrder | packages/tokens/src/serializer.ts:42-74 | after the colours come spacing, font, text, font-weight, leading, radius, shadow and transition, each in key order |
| Serializer.GroupLines | packages/tokens/src/serializer.ts:43-74 | the lines of the `spacing-4`, `font-sans`, `radius-md`, `shadow-md` and `transition-normal` declarations sit at fixed positions |
| Serializer.ExpectedDeclarations | packages/tokens/src/serializer.test.ts:26-37 | the block holds `  --color-primary-500: v;` for the primary 500 value v, and the spacing-4, font-sans, radius-md, shadow-md and transition-normal declarations with their values |
| Serializer.PrimaryFiveHundredSpelled | packages/tokens/src/serializer.ts:38 | the declaration for role 0, shade 5 is spelled `  --color-primary-500: v;` |
| Serializer.ConcatSingleLine | packages/tokens/src/serializer.ts:77 | two lists of single-line strings concatenate to one |
| Serializer.DeclSingleLine | packages/tokens/src/serializer.ts:38-73 | a declaration is one line when its prefix, key and value are |
| Serializer.DeclsSingleLine | packages/tokens/src/serializer.ts:43-73 | a record's declarations are single lines when its keys and values are |
| Serializer.NumericKeysSingleLine | packages/tokens/src/types.ts:29-58 | shade and spacing keys contain no newline |
| Serializer.ScaleSingleLine | packages/tokens/src/serializer.ts:37-39 | a scale's declarations are single lines when its values are |
| Serializer.ColorDeclsSingleLine | packages/tokens/src/serializer.ts:36-40 | all colour declarations are single lines when the colour values are |
| Serializer.TypographySingleLine | packages/tokens/src/serializer.ts:48-59 | the four typography groups give single lines when their values are |
| Serializer.SpacingSingleLine | packages/tokens/src/serializer.ts:43-45 | the spacing declarations are single lines when their values are |
| Serializer.TrailingGroupsSingleLine | packages/tokens/src/serializer.ts:62-74 | the radius, shadow and transition declarations are single lines when their values are |
| Serializer.RootLinesSingleLine | packages/tokens/src/serializer.ts:33-76 | every line of the block is one line when no token value holds a newline |
| Serializer.CssLines | packages/tokens/src/serializer.ts:76-77 | splitting the CSS at newlines gives back exactly the 107 lines: one per leaf token plus the two braces |
| Tailwind.FromToTailwind | packages/tokens/src/tailwind.ts:25-37 | no field is dropped: reading the Tailwind form back gives the token set |
| Tailwind.ToFromTailwind | packages/tokens/src/tailwind.ts:25-37 | no field is invented: every Tailwind theme is the relabelling of a token set |
| Tailwind.TailwindInjective | packages/tokens/src/tailwind.ts:25-37 | different token sets have different Tailwind forms |
| Tailwind.Lookup | packages/tokens/src/tailwind.test.ts:16-95 | `record[key]` is undefined exactly when no entry has the key, and an entry's value otherwise |
| Tailwind.LookupZip | packages/tokens/src/tailwind.test.ts:16-95 | with distinct keys, reading key i gives value i |
| Tailwind.SingleSourceOfTruth | packages/tokens/src/tailwind.ts:27-35 | every colour, spacing, font, size, weight, line-height, radius, shadow and transition value reads the same through the Tailwind names |
| Tailwind.TailwindColor | packages/tokens/src/tailwind.ts:27 | role r, shade k of `colors` is that shade of the token set |
| Tailwind.TailwindSpacing | packages/tokens/src/tailwind.ts:28 | spacing step k is that step of the token set |
| Tailwind.TailwindRadiiShadowsTransitions | packages/tokens/src/tailwind.ts:33-35 | `borderRadius`, `boxShadow` and `transitionDuration` give the radii, shadows and transitions |
| DarkTheme.DarkRow | packages/tokens/src/dark-theme.ts:10-87 | each role's row of the dark palette has eleven entries |
| DarkTheme.RowChecks | packages/tokens/src/dark-theme.ts:10-87 | each written-out row keeps lightness and chroma below one, has one hue, and rises in lightness |
| DarkTheme.TableShape | packages/tokens/src/dark-theme.ts:9-88 | the dark palette has six roles of eleven entries |
| DarkTheme.ScalesOf | packages/tokens/src/dark-theme.ts:9-88 | the palette writes one scale per row |
| DarkTheme.Roles | packages/tokens/src/dark-theme.ts:9-88 | six scales become the roles primary … neutral, in order |
| DarkTheme.PaletteEntry | packages/tokens/src/dark-theme.ts:10-87 | role r, shade k of the palette is entry (r, k) written as `oklch(L C H)` |
| DarkTheme.OnlyColorsChange | packages/tokens/src/dark-theme.ts:7-9 | `darkTheme` is the light theme with only `colors` replaced |
| DarkTheme.DarkEntry | packages/tokens/src/dark-theme.ts:10-87 | every dark colour is its table entry written out |
| DarkTheme.SpelledEntries | packages/tokens/src/dark-theme.ts:10-87 | primary 500 is `oklch(0.60 0.20 250)` and neutral 50 is `oklch(0.13 0 0)` |
| DarkTheme.HundredthsValue | packages/tokens/src/dark-theme.ts:10-87 | `0.<two digits>` is a well-formed channel worth n hundredths |
| DarkTheme.ChannelsValid | packages/tokens/src/dark-theme.ts:10-87 | a written entry has well-formed channels whose lightness is the entry's hundredths and whose hue is its integer |
| DarkTheme.PaletteParsed | packages/tokens/src/dark-theme.test.ts:44-60 | every written-out entry matches the oklch pattern and gives back its channels |
| DarkTheme.DarkColorsValid | packages/tokens/src/dark-theme.test.ts:44-60 | every dark colour matches the oklch pattern |
| DarkTheme.TableHues | packages/tokens/src/dark-theme.ts:10-87 | within each role every entry has the hue of the first |
| DarkTheme.TableLightnessSteps | packages/tokens/src/dark-theme.ts:10-87 | within each role the lightness strictly increases |
| DarkTheme.PaletteHue | packages/tokens/src/dark-theme.ts:10-87 | a table with constant hues writes shades that parse to one hue per role |
| DarkTheme.HueConstant | packages/tokens/src/dark-theme.ts:10-87 | every dark shade of a role parses to the hue of its shade 50 |
| DarkTheme.StepsIncreasing | packages/tokens/src/dark-theme.ts:10-87 | rising step by step means a later shade is lighter than any earlier one |
| DarkTheme.PaletteLightness | packages/tokens/src/dark-theme.ts:10-87 | a table rising in lightness writes shades whose parsed lightness rises |
| DarkTheme.LightnessIncreasing | packages/tokens/src/dark-theme.ts:10-87 | within a role, the parsed lightness of shade i is below that of every later shade j |
| DarkTheme.AboveNotBelow | packages/tokens/src/dark-theme.test.ts:15-33 | a colour lighter than one half differs from one darker than one half |
| DarkTheme.OppositeEdges | packages/tokens/src/dark-theme.test.ts:15-33 | on an edge shade a dark-to-light colour and a light-to-dark colour differ |
| DarkTheme.TableEdges | packages/tokens/src/dark-theme.ts:10-87 | shades 50 and 100 of every role are below half lightness, 900 and 950 above |
| DarkTheme.PaletteBelow | packages/tokens/src/dark-theme.ts:10-87 | an entry below half lightness writes a colour that parses below one half |
| DarkTheme.PaletteAbove | packages/tokens/src/dark-theme.ts:10-87 | an entry above half lightness writes a colour that parses above one half |
| DarkTheme.PaletteEdges | packages/tokens/src/dark-theme.ts:10-87 | a table dark at 50/100 and light at 900/950 writes such edges |
| DarkTheme.DarkEdges | packages/tokens/src/dark-theme.ts:10-87 | the dark palette is dark at shades 50 and 100 and light at 900 and 950 |
| DarkTheme.EdgeShadesDiffer | packages/tokens/src/dark-theme.test.ts:15-33 | for every role and shades 50, 100, 900 and 950, the dark value differs from the light one, given a light palette that runs light to dark |
| DarkTheme.GenerateDarkModeCSS | packages/tokens/src/dark-theme.ts:94-107 | the CSS is the `.dark` line list of the second argument's colours joined with newlines; the first argument is not read |
| DarkTheme.DarkLinesShape | packages/tokens/src/dark-theme.ts:94-107 | the block has 68 lines: `.dark {` first, `}` last |
| DarkTheme.DarkLine | packages/tokens/src/dark-theme.ts:99-103 | line 1 + 11·r + k declares role r, shade k of the given colours |
| DarkTheme.ColorDeclHead | packages/tokens/src/dark-theme.ts:101 | every colour declaration starts with `  --color-` |
| DarkTheme.OnlyColorDeclarations | packages/tokens/src/dark-theme.ts:99-103 | every declaration of the block is a colour declaration |
| DarkTheme.SameColorLines | packages/tokens/src/dark-theme.ts:99-103 | the declarations are exactly the colour lines `tokensToCSS` writes for the same token set |
| DarkTheme.DarkCssLines | packages/tokens/src/dark-theme.ts:104-106 | splitting the dark CSS at newlines gives back exactly its lines |
| Text.NatStrValue | packages/tokens/src/theme.test.ts:20 | a rendered number is a non-empty digit string that reads back as the number |
| Text.DigitRunDigits | packages/tokens/src/theme.test.ts:20 | the digit run `parseInt` reads is all digits and stops at the first non-digit |
| Text.WhitespaceRun | packages/tokens/src/theme.test.ts:20 | the whitespace `parseInt` skips is all whitespace and stops at the first other character |
| Text.DigitRunOfPrefix | packages/tokens/src/theme.test.ts:20 | a digit run stops exactly where the leading digits end |
| Js.TypeOf | packages/utils/src/errors.ts:22 | `typeof` gives one of the eight tags, and `"object"` exactly for null and objects |
| Js.ContainsMiddle | packages/utils/src/errors.ts:10-11 | a string occurs in any concatenation it sits in the middle of |
| Errors.NewPineappleUIError | packages/utils/src/errors.ts:5-13 | the base error keeps code and component as given and is named `PineappleUIError` |
| Errors.BaseMessage | packages/utils/src/errors.ts:10-11 | the message is `[Pineapple UI - C] M` for a non-empty component C, `[Pineapple UI] M` otherwise; M reads back from it and C occurs in it |
| Errors.NewInvalidPropError | packages/utils/src/errors.ts:19-27 | code `INVALID_PROP`, name `InvalidPropError`, the component kept |
| Errors.InvalidPropMessage | packages/utils/src/errors.ts:20-25 | an invalid-prop error is a base error whose body is `Invalid prop "P": expected E, received T` with T the `typeof` tag, and a non-empty component is named in it |
| Errors.InvalidPropBodyNames | packages/utils/src/errors.ts:22 | the body names the prop, the expected kind and the received type |
| Errors.NewMissingContextError | packages/utils/src/errors.ts:33-37 | code `MISSING_CONTEXT`, name `MissingContextError`, the component kept |
| Errors.MissingContextMessage | packages/utils/src/errors.ts:34-36 | a missing-context error is a base error whose body is `C must be used within a X provider`, naming the component and the context |
| FormField.Present | packages/core/src/components/form-field/form-field.tsx:47 | `.filter(Boolean)` keeps no empty string |
| FormField.PresentKeeps | packages/core/src/components/form-field/form-field.tsx:47 | a string survives the filter exactly when it is non-empty and present in the list |
| FormField.PresentConcat | packages/core/src/components/form-field/form-field.tsx:47 | the filter keeps order: filtering a concatenation joins the filtered parts in order, and never lengthens the list |
| FormField.DescribedByCases | packages/core/src/components/form-field/form-field.tsx:46-47 | `aria-describedby` is `<error id> <helper id>`, either one alone, or absent, as error and helper text are set |
| FormField.IdsDistinct | packages/core/src/components/form-field/form-field.tsx:43-44 | a field's error and helper ids differ, and each determines the field id |
| FormField.RejectsNonElements | packages/core/src/components/form-field/form-field.tsx:50-52 | rendering throws exactly for a child that is not an element: an `InvalidPropError` for `children` naming `FormField`, with the child's `typeof` tag |
| FormField.InjectedProps | packages/core/src/components/form-field/form-field.tsx:41-69 | the control gets the provided id or else the generated one, which the label points at; `aria-invalid` is true exactly with an error; `error` is whether there is one; `required` passes through |
| FormField.RenderedParts | packages/core/src/components/form-field/form-field.tsx:79-95 | the error paragraph (role `alert`) renders exactly with an error, the helper exactly with helper text and no error, the label exactly with a label, marked `*` exactly when required |
| FormField.DescribedByTargets | packages/core/src/components/form-field/form-field.tsx:46-95 | every rendered paragraph is named by `aria-describedby`; with both texts the helper id is listed but not rendered |
| Children.ToArray | packages/core/src/components/breadcrumb/breadcrumb.tsx:23 | `toArray` keeps no null, undefined or boolean |
| Children.FilterTruthyKeeps | packages/core/src/components/breadcrumb/breadcrumb.tsx:23 | `.filter(Boolean)` keeps exactly the truthy nodes, in order |
| Children.ToArrayKeeps | packages/core/src/components/breadcrumb/breadcrumb.tsx:23 | `toArray` keeps exactly the nodes other than null, undefined and booleans, in order |
| Children.SubsequenceTrans | packages/core/src/components/breadcrumb/breadcrumb.tsx:23 | leaving out elements twice leaves them out once |
| Children.ChildArrayTruthy | packages/core/src/components/breadcrumb/breadcrumb.tsx:23 | the child array is the children in order, keeping exactly the truthy non-boolean ones |
| Children.InterleaveLayout | packages/core/src/components/breadcrumb/breadcrumb.tsx:28-36 | n ≥ 1 items give 2n − 1 entries, item i at 2i and the separator at 2i + 1; no items give none |
| Children.EvensInterleave | packages/core/src/components/breadcrumb/breadcrumb.tsx:28-36 | the even positions of the laid-out list are the items, in order |
| Children.InterleaveEnds | packages/core/src/components/breadcrumb/breadcrumb.tsx:28-34 | the first and last entries are the first and last items, never a separator |
| Breadcrumb.SeparatorOf | packages/core/src/components/breadcrumb/breadcrumb.tsx:22 | the destructuring default gives `/` for an omitted prop and for an explicit `undefined`, and keeps every other value |
| Breadcrumb.BreadcrumbLayout | packages/core/src/components/breadcrumb/breadcrumb.tsx:22-36 | n truthy children give 2n − 1 list items, crumb i at 2i and the separator between consecutive crumbs, crumbs at both ends; the separator is `/` when the prop is omitted or `undefined`, and the given node otherwise |
| Breadcrumb.BreadcrumbCrumbs | packages/core/src/components/breadcrumb/breadcrumb.tsx:23-30 | the crumbs read back are exactly the truthy children, in order |
| Breadcrumb.BreadcrumbItem | packages/core/src/components/breadcrumb/breadcrumb.tsx:61-78 | a link exactly when `href` is set and the item is not current; otherwise a span with `aria-current="page"` exactly when current |
| Breadcrumb.CurrentIsNotALink | packages/core/src/components/breadcrumb/breadcrumb.tsx:61-78 | the current item is a `page` span whatever its `href` |
| Stack.StackWithDivider | packages/core/src/components/stack/stack.tsx:57-71 | with a truthy divider, n truthy children give 2n − 1 nodes, child i at 2i and the divider between consecutive children, none after the last; the children read back in order |
| Stack.StackWithoutDivider | packages/core/src/components/stack/stack.tsx:65-72 | without a truthy divider the children pass through unfiltered |
| ControllableState.Hook.constructor | packages/hooks/src/use-controllable-state.ts:29-60 | the state and the ref start at `defaultProp`; the value is `prop` when given, else `defaultProp` |
| ControllableState.Hook.Rerender | packages/hooks/src/use-controllable-state.ts:33-34 | a new render keeps the state; a controlled value follows the new `prop`, an uncontrolled one stays |
| ControllableState.Hook.SetState | packages/hooks/src/use-controllable-state.ts:59 | the state becomes the new value, an updater seeing the previous state |
| ControllableState.Hook.RunEffect | packages/hooks/src/use-controllable-state.ts:62-67 | when the state differs from the ref, `onChange` gets it (if given) and the ref catches up; otherwise nothing happens |
| ControllableState.Hook.SetValue | packages/hooks/src/use-controllable-state.ts:36-47 | controlled: `onChange` gets the new value exactly when it differs from `prop`, and the state and value stay; uncontrolled: the state takes the new value and `onChange` gets it exactly when it changed |
| Toast.Toast | packages/core/src/components/toast/toast.tsx:25-56 | role `alert` and `aria-live="assertive"` exactly for an error, `status` and `polite` otherwise; a timer of the duration (5000 by default) exactly when it is positive and `onDismiss` is given; a "Dismiss" button exactly when `onDismiss` is given |
| Avatar.UpperAscii | packages/core/src/components/avatar/avatar.tsx:48 | uppercasing leaves no lowercase ASCII letter and changes nothing else |
| Avatar.NormaliseInitials | packages/core/src/components/avatar/avatar.tsx:48 | the initials are the first two characters (fewer if shorter), uppercased |
| Avatar.NormaliseIdempotent | packages/core/src/components/avatar/avatar.tsx:48 | normalising initials twice is normalising them once |
| Avatar.Avatar.constructor | packages/core/src/components/avatar/avatar.tsx:35 | a new avatar has recorded no image error |
| Avatar.Avatar.View | packages/core/src/components/avatar/avatar.tsx:39-53 | the image (alt defaulting to empty) exactly when `src` is non-empty and has not failed; else one or two uppercased initials exactly when given; else the silhouette |
| Avatar.Avatar.HandleImageError | packages/core/src/components/avatar/avatar.tsx:44 | after a load error no props bring the image back |
| Button.Button | packages/core/src/components/button/button.tsx:64-99 | `asChild` passes only the children; otherwise disabled exactly when `disabled` or `loading`, the spinner exactly when loading, the left icon exactly when not loading and given, the right icon exactly when given |
| Input.Input | packages/core/src/components/input/input.tsx:22-30 | an error forces the `error` variant; `disabled` passes through; `aria-required` and `aria-invalid` are `true` exactly when `required` and `error` are, absent otherwise |
| Textarea.Textarea | packages/core/src/components/textarea/textarea.tsx:22-29 | the same override and ARIA flags as `Input` |
| Textarea.AgreesWithInput | packages/core/src/components/textarea/textarea.tsx:26-29 | a textarea and an input given the same props get the same variant, `disabled` and ARIA flags |
| CreateIcon.CreateIcon | packages/icons/src/create-icon.tsx:16-48 | the component made carries the display name and shapes it was given |
| CreateIcon.Render | packages/icons/src/create-icon.tsx:21-41 | width = height = size (24 by default) and stroke = colour (`currentColor` by default); decorative (hidden, no role) exactly without a non-empty `aria-label`, an `img` otherwise; the label kept and the shapes drawn |
| Icon.Icon | packages/icons/src/icon.tsx:20-40 | the same size, colour and decorative-versus-labelled rules, drawing the children unchanged |
| Icon.MatchesFactory | packages/icons/src/icon.tsx:19-46 | `Icon` renders exactly what `createIcon("Icon", children)` renders, and is named `Icon` |

## Left out

- JSON text. `JSON.stringify` and `JSON.parse` are modelled as an
  abstract document: the encoding of a JSON value, or text that does not
  parse. Indentation and escaping are not modelled.
- The light theme. `packages/tokens/src/theme.ts` is not part of this
  model, so the light theme is a parameter wherever `defaultTheme` is used.
  `tailwindTheme` is `ToTailwindTheme` applied to it, and
  `Tailwind.SingleSourceOfTruth` holds for every token set.
- DarkTheme.EdgeShadesDiffer: the light values live in
  `packages/tokens/src/theme.ts`, which is not part of this model. The lemma
  therefore takes the light palette as a parameter and assumes, through
  `LightEdges`, that its shades 50 and 100 have lightness above one half and
  its shades 900 and 950 below. This is an assumption about those unseen
  values: the scale's documentation says only "50 (lightest) to 950
  (darkest)", and that ordering alone would not give the inequality.
- Key order of the records. For keys that are not integer-like,
  `Object.entries` follows property-creation order, which depends on how the
  runtime object was built. The model fixes each record's key order to the
  order of its interface in `packages/tokens/src/types.ts`. This is an
  assumption about the unseen `theme.ts` literal and about any token object
  read from JSON text. `Serializer.GroupOrder`, `Serializer.RootLines`,
  `Serializer.EntriesJs` and `DarkTheme.SameColorLines` rest on it. Examples
  are the order of the roles, of the font, size, weight and line-height
  groups, and of the radius, shadow and transition lines. A token object
  whose keys were created in another order gives `tokensToCSS` lines in that
  other order. The shade and spacing keys are integer-like, so their order is
  not affected.
- Colour arithmetic. Lightness and chroma are kept as hundredths. Hue is
  kept as an integer. No oklch conversion is modelled.
- Rendering and the DOM. Class names, `cn`, the style tables, ref
  forwarding and the `{...props}` spread are not modelled. The spread
  comes after the computed attributes in `Input`, `Textarea` and the icons,
  so a caller could override those attributes.
- Timers. `Toast` schedules `setTimeout(onDismiss, duration)`; the model
  records only whether a timer is set and its delay. The clean-up on
  unmount is not modelled.
- Toast.Toast: durations are integers. NaN and fractional durations are
  not modelled.
- ControllableState.Hook.SetValue: the effect runs immediately after each
  uncontrolled update. React's batching is not modelled: several updates
  before one effect run are not covered. Value identity is Dafny equality,
  which stands for `!==` on the values compared.
- Avatar.NormaliseInitials: uppercasing covers ASCII letters only.
  `toUpperCase` on other characters is not modelled. A Dafny string counts
  Unicode scalar values, while `slice(0, 2)` counts UTF-16 code units. The
  two agree only for characters in the Basic Multilingual Plane. For
  initials starting with, say, an emoji, the source keeps one character and
  the model two.
- Tokens.PixelSpacing: `ParseInt` is exact integer arithmetic, but
  JavaScript's `parseInt` returns a double. The model agrees with the source
  only for digit runs below 2^53. Above that the double rounds, and for
  9007199254740993 the source computes 9007199254740992 and finds it on the
  grid, where the model does not. Digit runs too long for a double give
  `Infinity`, whose `% 4` is NaN. The spacing tokens are small numbers, far
  below this bound.
- Children.TruthyNode: numbers are integers, so NaN is not a node.
  `React.Children.toArray`'s key handling and the flattening of nested
  arrays and fragments are not modelled.
- Radix `Slot`. With `asChild` the button only hands its children to
  `Slot`. How `Slot` merges props into the child is not modelled.
- `displayName` beyond its string value, and React's `useId`: the
  generated id is a parameter.
