/**
 * The versioned serialiser and the CSS projector of a token set.
 *
 * The JSON text itself is kept abstract: a document is either the encoding
 * of a JSON value (what `JSON.stringify` produces and `JSON.parse` reads
 * back) or text that does not parse. What is modelled is the envelope, the
 * field read after parsing, and the failure when parsing throws.
 */
module Serializer {
  import opened Text
  import opened Tokens

  const SerializerVersion: string := "1.0.0"

  /** JSON values as `JSON.parse` builds them; an object keeps its members in text order. */
  datatype JsValue =
    | JsNull
    | JsBool(b: bool)
    | JsNumber(n: int)
    | JsString(s: string)
    | JsArray(items: seq<JsValue>)
    | JsObject(members: seq<(string, JsValue)>)

  /** A JSON document: the encoding of a value, or text that is not JSON. */
  datatype JsonText = Encoded(value: JsValue) | Unparsable(raw: string)

  datatype DeserializeError =
    | MalformedDocument   // `JSON.parse` throws a SyntaxError
    | NullDocument        // the document is `null`, so reading `.tokens` throws a TypeError

  datatype Result<+T, +E> = Ok(value: T) | Err(error: E)

  // ---------------------------------------------------------------------
  // Token sets as JSON values
  // ---------------------------------------------------------------------

  /** A record of string leaves, members in `Object.entries` order. */
  function EntriesJs(e: seq<(string, string)>): (v: JsValue)
    ensures v.JsObject? && |v.members| == |e|
    ensures forall i :: 0 <= i < |e| ==> v.members[i] == (e[i].0, JsString(e[i].1))
  {
    JsObject(seq(|e|, i requires 0 <= i < |e| => (e[i].0, JsString(e[i].1))))
  }

  /** An object with the given member names and values, in order. */
  function ObjectOf(keys: seq<string>, values: seq<JsValue>): (v: JsValue)
    requires |keys| == |values|
    ensures v.JsObject? && |v.members| == |keys|
    ensures forall i :: 0 <= i < |keys| ==> v.members[i] == (keys[i], values[i])
  {
    JsObject(seq(|keys|, i requires 0 <= i < |keys| => (keys[i], values[i])))
  }

  function ColorsJs(c: ColorTokens): JsValue {
    var s := c.Scales();
    ObjectOf(RoleKeys, seq(6, r requires 0 <= r < 6 => EntriesJs(s[r].Entries())))
  }

  const TypographyKeys: seq<string> := ["fontFamily", "fontSize", "fontWeight", "lineHeight"]
  const ThemeKeys: seq<string> := ["colors", "spacing", "typography", "radii", "shadows", "transitions"]

  function TypographyJs(ty: TypographyTokens): JsValue {
    ObjectOf(TypographyKeys, [
      EntriesJs(ty.fontFamily.Entries()), EntriesJs(ty.fontSize.Entries()),
      EntriesJs(ty.fontWeight.Entries()), EntriesJs(ty.lineHeight.Entries())])
  }

  function ThemeJs(t: ThemeTokens): JsValue {
    ObjectOf(ThemeKeys, [
      ColorsJs(t.colors), EntriesJs(t.spacing.Entries()), TypographyJs(t.typography),
      EntriesJs(t.radii.Entries()), EntriesJs(t.shadows.Entries()), EntriesJs(t.transitions.Entries())])
  }

  /** The string leaves of a record whose members are exactly `keys`, in that order. */
  function ReadLeaves(v: JsValue, keys: seq<string>): (r: Option<seq<string>>)
    ensures r.Some? ==> |r.value| == |keys|
  {
    if v.JsObject? && |v.members| == |keys|
       && (forall i :: 0 <= i < |keys| ==> v.members[i].0 == keys[i] && v.members[i].1.JsString?)
    then Some(seq(|keys|, i requires 0 <= i < |keys| => v.members[i].1.s))
    else None
  }

  /** The members of an object whose keys are exactly `keys`, in that order. */
  function ReadMembers(v: JsValue, keys: seq<string>): (r: Option<seq<JsValue>>)
    ensures r.Some? ==> |r.value| == |keys|
  {
    if v.JsObject? && |v.members| == |keys| && (forall i :: 0 <= i < |keys| ==> v.members[i].0 == keys[i])
    then Some(seq(|keys|, i requires 0 <= i < |keys| => v.members[i].1))
    else None
  }

  function ReadScale(v: JsValue): Option<ColorScale> {
    match ReadLeaves(v, ShadeKeys)
    case Some(s) => Some(ScaleOf(s))
    case None => None
  }

  function ReadColors(v: JsValue): Option<ColorTokens> {
    match ReadMembers(v, RoleKeys)
    case None => None
    case Some(m) =>
      match (ReadScale(m[0]), ReadScale(m[1]), ReadScale(m[2]), ReadScale(m[3]), ReadScale(m[4]), ReadScale(m[5]))
      case (Some(p), Some(s), Some(ok), Some(w), Some(d), Some(n)) => Some(ColorTokens(p, s, ok, w, d, n))
      case _ => None
  }

  function ReadTypography(v: JsValue): Option<TypographyTokens> {
    match ReadMembers(v, TypographyKeys)
    case None => None
    case Some(m) =>
      match (ReadLeaves(m[0], FontFamilyKeys), ReadLeaves(m[1], FontSizeKeys),
             ReadLeaves(m[2], FontWeightKeys), ReadLeaves(m[3], LineHeightKeys))
      case (Some(f), Some(s), Some(w), Some(h)) =>
        Some(TypographyTokens(FontFamilyTokens(f[0], f[1]), FontSizeTokens(s[0], s[1], s[2], s[3], s[4], s[5], s[6]),
                              FontWeightTokens(w[0], w[1], w[2], w[3]), LineHeightTokens(h[0], h[1], h[2])))
      case _ => None
  }

  /**
   * Reads a JSON value back as a token set when it has exactly the schema's
   * shape; this is the reading under which two documents are deeply equal.
   */
  function ReadTheme(v: JsValue): Option<ThemeTokens> {
    match ReadMembers(v, ThemeKeys)
    case None => None
    case Some(m) =>
      match (ReadColors(m[0]), ReadLeaves(m[1], SpacingKeys), ReadTypography(m[2]),
             ReadLeaves(m[3], RadiiKeys), ReadLeaves(m[4], ShadowKeys), ReadLeaves(m[5], TransitionKeys))
      case (Some(c), Some(sp), Some(ty), Some(r), Some(sh), Some(tr)) =>
        Some(ThemeTokens(c, SpacingTokens(sp[0], sp[1], sp[2], sp[3], sp[4], sp[5], sp[6], sp[7], sp[8], sp[9], sp[10]),
                         ty, RadiiTokens(r[0], r[1], r[2], r[3], r[4], r[5]),
                         ShadowTokens(sh[0], sh[1], sh[2]), TransitionTokens(tr[0], tr[1], tr[2])))
      case _ => None
  }

  lemma ReadLeavesEntries(e: seq<(string, string)>, keys: seq<string>, values: seq<string>)
    requires |keys| == |values| && e == Zip(keys, values)
    ensures ReadLeaves(EntriesJs(e), keys) == Some(values)
  {
    var v := EntriesJs(e);
    assert forall i :: 0 <= i < |keys| ==> v.members[i].0 == keys[i] && v.members[i].1.JsString?;
    assert seq(|keys|, i requires 0 <= i < |keys| => v.members[i].1.s) == values;
  }

  lemma ReadMembersOf(keys: seq<string>, values: seq<JsValue>)
    requires |keys| == |values|
    ensures ReadMembers(ObjectOf(keys, values), keys) == Some(values)
  {
    var v := ObjectOf(keys, values);
    assert seq(|keys|, i requires 0 <= i < |keys| => v.members[i].1) == values;
  }

  lemma ReadScaleJs(s: ColorScale)
    ensures ReadScale(EntriesJs(s.Entries())) == Some(s)
  {
    ReadLeavesEntries(s.Entries(), ShadeKeys, s.Values());
  }

  lemma ReadColorsJs(c: ColorTokens)
    ensures ReadColors(ColorsJs(c)) == Some(c)
  {
    var s := c.Scales();
    ReadMembersOf(RoleKeys, seq(6, r requires 0 <= r < 6 => EntriesJs(s[r].Entries())));
    ReadScaleJs(c.primary);
    ReadScaleJs(c.secondary);
    ReadScaleJs(c.success);
    ReadScaleJs(c.warning);
    ReadScaleJs(c.danger);
    ReadScaleJs(c.neutral);
  }

  lemma ReadTypographyJs(ty: TypographyTokens)
    ensures ReadTypography(TypographyJs(ty)) == Some(ty)
  {
    var f, s, w, h := ty.fontFamily, ty.fontSize, ty.fontWeight, ty.lineHeight;
    ReadMembersOf(TypographyKeys, [
      EntriesJs(f.Entries()), EntriesJs(s.Entries()), EntriesJs(w.Entries()), EntriesJs(h.Entries())]);
    ReadLeavesEntries(f.Entries(), FontFamilyKeys, [f.sans, f.mono]);
    ReadLeavesEntries(s.Entries(), FontSizeKeys, [s.xs, s.sm, s.base, s.lg, s.xl, s.x2xl, s.x3xl]);
    ReadLeavesEntries(w.Entries(), FontWeightKeys, [w.normal, w.medium, w.semibold, w.bold]);
    ReadLeavesEntries(h.Entries(), LineHeightKeys, [h.tight, h.normal, h.relaxed]);
  }

  /** The JSON form of a token set determines the token set: no field is lost or merged. */
  lemma ReadThemeJs(t: ThemeTokens)
    ensures ReadTheme(ThemeJs(t)) == Some(t)
  {
    ReadMembersOf(ThemeKeys, [
      ColorsJs(t.colors), EntriesJs(t.spacing.Entries()), TypographyJs(t.typography),
      EntriesJs(t.radii.Entries()), EntriesJs(t.shadows.Entries()), EntriesJs(t.transitions.Entries())]);
    ReadColorsJs(t.colors);
    ReadTypographyJs(t.typography);
    ReadLeavesEntries(t.spacing.Entries(), SpacingKeys, t.spacing.Values());
    var r, sh, tr := t.radii, t.shadows, t.transitions;
    ReadLeavesEntries(r.Entries(), RadiiKeys, [r.none, r.sm, r.md, r.lg, r.xl, r.full]);
    ReadLeavesEntries(sh.Entries(), ShadowKeys, [sh.sm, sh.md, sh.lg]);
    ReadLeavesEntries(tr.Entries(), TransitionKeys, [tr.fast, tr.normal, tr.slow]);
  }

  // ---------------------------------------------------------------------
  // serializeTokens / deserializeTokens
  // ---------------------------------------------------------------------

  /** The envelope `{ version, tokens }`, members in that order. */
  function Envelope(version: string, tokens: JsValue): JsValue {
    JsObject([("version", JsString(version)), ("tokens", tokens)])
  }

  /** `serializeTokens`: the envelope with the current version around the tokens, as JSON. */
  function SerializeTokens(t: ThemeTokens): JsonText
  {
    Encoded(Envelope(SerializerVersion, ThemeJs(t)))
  }

  /** The document is an envelope whose version is `1.0.0` and whose tokens are the input. */
  lemma SerializeEnvelope(t: ThemeTokens)
    ensures SerializeTokens(t).Encoded?
    ensures ReadMember(SerializeTokens(t).value, "version") == Ok(Some(JsString("1.0.0")))
    ensures ReadMember(SerializeTokens(t).value, "tokens") == Ok(Some(ThemeJs(t)))
  {
    var m := [("version", JsString(SerializerVersion)), ("tokens", ThemeJs(t))];
    assert SerializeTokens(t).value == JsObject(m);
    assert "tokens" != "version" by {
      assert |"tokens"| == 6 && |"version"| == 7;
    }
    assert m[..1] == [("version", JsString(SerializerVersion))];
    assert LastMember(m, "version") == LastMember(m[..1], "version");
  }

  /** The value of the last member named `key`, as `JSON.parse` keeps the last duplicate. */
  function LastMember(members: seq<(string, JsValue)>, key: string): (r: Option<JsValue>)
    ensures r.None? <==> forall i :: 0 <= i < |members| ==> members[i].0 != key
    ensures r.Some? ==> (key, r.value) in members
  {
    if members == [] then None
    else if members[|members| - 1].0 == key then Some(members[|members| - 1].1)
    else LastMember(members[..|members| - 1], key)
  }

  /** The member `LastMember` finds is the last one with the key: no later member has it. */
  lemma {:induction false} LastMemberIsLast(members: seq<(string, JsValue)>, key: string)
    ensures LastMember(members, key).Some? ==>
      exists i :: 0 <= i < |members| && members[i] == (key, LastMember(members, key).value)
        && (forall j :: i < j < |members| ==> members[j].0 != key)
  {
    if members != [] {
      var n := |members| - 1;
      if members[n].0 == key {
        assert members[n] == (key, LastMember(members, key).value);
      } else {
        var prefix := members[..n];
        LastMemberIsLast(prefix, key);
        if LastMember(prefix, key).Some? {
          var i :| 0 <= i < |prefix| && prefix[i] == (key, LastMember(prefix, key).value)
            && (forall j :: i < j < |prefix| ==> prefix[j].0 != key);
          assert members[i] == prefix[i];
          forall j | i < j < |members| ensures members[j].0 != key {
            if j < n { assert members[j] == prefix[j]; }
          }
        }
      }
    }
  }

  /**
   * `value.key`: throws on `null`, is the member on an object, and is
   * `undefined` (None) on every other value.
   */
  function ReadMember(v: JsValue, key: string): Result<Option<JsValue>, DeserializeError> {
    match v
    case JsNull => Err(NullDocument)
    case JsObject(m) => Ok(LastMember(m, key))
    case _ => Ok(None)
  }

  /**
   * `deserializeTokens`: parse, then read `.tokens` without looking at the
   * version or at the shape of what is found there.
   */
  function DeserializeTokens(doc: JsonText): Result<Option<JsValue>, DeserializeError> {
    match doc
    case Unparsable(_) => Err(MalformedDocument)
    case Encoded(v) => ReadMember(v, "tokens")
  }

  /** A document naming `tokens` twice deserialises to the second value. */
  lemma DuplicateTokensLastWins(a: JsValue, b: JsValue)
    ensures DeserializeTokens(Encoded(JsObject([("tokens", a), ("tokens", b)]))) == Ok(Some(b))
  {
  }

  /** Round trip: deserialising a serialised token set gives back the same token set. */
  lemma RoundTrip(t: ThemeTokens)
    ensures DeserializeTokens(SerializeTokens(t)) == Ok(Some(ThemeJs(t)))
    ensures ReadTheme(ThemeJs(t)) == Some(t)
  {
    ReadThemeJs(t);
  }

  /** No version check: an envelope of any version yields its tokens field. */
  lemma AnyVersionAccepted(version: string, tokens: JsValue)
    ensures DeserializeTokens(Encoded(Envelope(version, tokens))) == Ok(Some(tokens))
  {
  }

  /** The only failures are text that does not parse and the document `null`. */
  lemma DeserializeFailures(doc: JsonText)
    ensures DeserializeTokens(doc) == Err(MalformedDocument) <==> doc.Unparsable?
    ensures DeserializeTokens(doc) == Err(NullDocument) <==> doc == Encoded(JsNull)
    ensures DeserializeTokens(doc).Err? <==> doc.Unparsable? || doc == Encoded(JsNull)
  {
  }

  // ---------------------------------------------------------------------
  // tokensToCSS
  // ---------------------------------------------------------------------

  /** One custom-property declaration line, `  --<prefix><key>: <value>;`. */
  function Decl(prefix: string, key: string, value: string): string {
    "  --" + prefix + key + ": " + value + ";"
  }

  /** One declaration per entry, in entry order. */
  function Decls(prefix: string, e: seq<(string, string)>): (lines: seq<string>)
    ensures |lines| == |e|
  {
    seq(|e|, i requires 0 <= i < |e| => Decl(prefix, e[i].0, e[i].1))
  }

  /** The colour declarations of the first `n` roles, role-major then shade-minor. */
  function ColorDecls(c: ColorTokens, n: nat): (lines: seq<string>)
    requires n <= 6
    ensures |lines| == 11 * n
  {
    if n == 0 then []
    else ColorDecls(c, n - 1) + Decls("color-" + RoleKeys[n - 1] + "-", c.Scales()[n - 1].Entries())
  }

  /** The lines `tokensToCSS` joins: `:root {`, the nine groups in order, `}`. */
  function RootLines(t: ThemeTokens): seq<string> {
    [":root {"]
    + ColorDecls(t.colors, 6)
    + Decls("spacing-", t.spacing.Entries())
    + Decls("font-", t.typography.fontFamily.Entries())
    + Decls("text-", t.typography.fontSize.Entries())
    + Decls("font-weight-", t.typography.fontWeight.Entries())
    + Decls("leading-", t.typography.lineHeight.Entries())
    + Decls("radius-", t.radii.Entries())
    + Decls("shadow-", t.shadows.Entries())
    + Decls("transition-", t.transitions.Entries())
    + ["}"]
  }

  /** Appends one declaration per entry: one `for…of` loop of `tokensToCSS`. */
  method PushDecls(lines: seq<string>, prefix: string, e: seq<(string, string)>) returns (out: seq<string>)
    ensures out == lines + Decls(prefix, e)
  {
    out := lines;
    for i := 0 to |e|
      invariant out == lines + Decls(prefix, e[..i])
    {
      out := out + [Decl(prefix, e[i].0, e[i].1)];
    }
    assert e[..|e|] == e;
  }

  /** The nested colour loop: for each role, one declaration per shade. */
  method PushColorDecls(lines: seq<string>, c: ColorTokens) returns (out: seq<string>)
    ensures out == lines + ColorDecls(c, 6)
  {
    out := lines;
    for r := 0 to 6
      invariant out == lines + ColorDecls(c, r)
    {
      var prefix := "color-" + RoleKeys[r] + "-";
      ColorDeclsStep(c, r);
      out := PushDecls(out, prefix, c.Scales()[r].Entries());
    }
  }

  lemma ColorDeclsStep(c: ColorTokens, r: nat)
    requires r < 6
    ensures ColorDecls(c, r + 1) == ColorDecls(c, r) + Decls("color-" + RoleKeys[r] + "-", c.Scales()[r].Entries())
  {
  }

  /** `tokensToCSS`: builds the line list group by group and joins it with newlines. */
  method TokensToCSS(t: ThemeTokens) returns (css: string)
    ensures css == Join(RootLines(t), "\n")
  {
    var lines := PushColorDecls([":root {"], t.colors);
    lines := PushDecls(lines, "spacing-", t.spacing.Entries());
    lines := PushDecls(lines, "font-", t.typography.fontFamily.Entries());
    lines := PushDecls(lines, "text-", t.typography.fontSize.Entries());
    lines := PushDecls(lines, "font-weight-", t.typography.fontWeight.Entries());
    lines := PushDecls(lines, "leading-", t.typography.lineHeight.Entries());
    lines := PushDecls(lines, "radius-", t.radii.Entries());
    lines := PushDecls(lines, "shadow-", t.shadows.Entries());
    lines := PushDecls(lines, "transition-", t.transitions.Entries());
    lines := lines + ["}"];
    css := Join(lines, "\n");
  }

  // ---------------------------------------------------------------------
  // What the CSS text contains
  // ---------------------------------------------------------------------

  /** The position of the first `c` in `s`, or `|s|` when there is none. */
  function IndexOf(s: string, c: char): (i: nat)
    ensures i <= |s|
    ensures i < |s| ==> s[i] == c
    ensures forall k :: 0 <= k < i ==> s[k] != c
  {
    if s == [] then 0 else if s[0] == c then 0 else 1 + IndexOf(s[1..], c)
  }

  /** `text.split(c)`. */
  function Split(text: string, c: char): (parts: seq<string>)
    ensures |parts| >= 1
    decreases |text|
  {
    var i := IndexOf(text, c);
    if i == |text| then [text] else [text[..i]] + Split(text[i + 1..], c)
  }

  predicate FreeOf(s: string, c: char) {
    forall i :: 0 <= i < |s| ==> s[i] != c
  }

  /** Splitting the joined lines at the separator gives the lines back. */
  lemma {:induction false} SplitJoin(lines: seq<string>, c: char)
    requires |lines| >= 1
    requires forall k :: 0 <= k < |lines| ==> FreeOf(lines[k], c)
    ensures Split(Join(lines, [c]), c) == lines
  {
    var head := lines[0];
    if |lines| == 1 {
      assert Join(lines, [c]) == head;
    } else {
      var rest := Join(lines[1..], [c]);
      var text := head + [c] + rest;
      assert Join(lines, [c]) == text;
      assert IndexOf(text, c) == |head| by {
        assert text[|head|] == c;
        assert forall k :: 0 <= k < |head| ==> text[k] == head[k];
      }
      assert text[..|head|] == head;
      assert text[|head| + 1..] == rest;
      SplitJoin(lines[1..], c);
    }
  }

  /** The line list has the `:root {` opener, 105 declarations and the closing brace. */
  lemma RootLinesShape(t: ThemeTokens)
    ensures |RootLines(t)| == 107
    ensures RootLines(t)[0] == ":root {" && RootLines(t)[106] == "}"
  {
    SchemaShape(t);
  }

  lemma {:induction false} ColorDeclsAt(c: ColorTokens, n: nat, r: nat, k: nat)
    requires r < n <= 6 && k < 11
    ensures ColorDecls(c, n)[11 * r + k] == Decl("color-" + RoleKeys[r] + "-", ShadeKeys[k], c.Scales()[r].Values()[k])
  {
    if r < n - 1 {
      ColorDeclsAt(c, n - 1, r, k);
    }
  }

  /** Colours come first, role-major and shade-minor, one line per role and shade. */
  lemma ColorLine(t: ThemeTokens, r: nat, k: nat)
    requires r < 6 && k < 11
    ensures RootLines(t)[1 + 11 * r + k] == Decl("color-" + RoleKeys[r] + "-", ShadeKeys[k], t.colors.Scales()[r].Values()[k])
  {
    ColorDeclsAt(t.colors, 6, r, k);
    ColorBlock(t);
    assert RootLines(t)[1 + 11 * r + k] == RootLines(t)[1..67][11 * r + k];
  }

  lemma ColorBlock(t: ThemeTokens)
    ensures |RootLines(t)| == 107
    ensures RootLines(t)[1..67] == ColorDecls(t.colors, 6)
  {
    SchemaShape(t);
  }

  /** After the colours the groups follow in a fixed order, each in key order. */
  lemma GroupOrder(t: ThemeTokens)
    ensures RootLines(t)[67..78] == Decls("spacing-", t.spacing.Entries())
    ensures RootLines(t)[78..80] == Decls("font-", t.typography.fontFamily.Entries())
    ensures RootLines(t)[80..87] == Decls("text-", t.typography.fontSize.Entries())
    ensures RootLines(t)[87..91] == Decls("font-weight-", t.typography.fontWeight.Entries())
    ensures RootLines(t)[91..94] == Decls("leading-", t.typography.lineHeight.Entries())
    ensures RootLines(t)[94..100] == Decls("radius-", t.radii.Entries())
    ensures RootLines(t)[100..103] == Decls("shadow-", t.shadows.Entries())
    ensures RootLines(t)[103..106] == Decls("transition-", t.transitions.Entries())
  {
    SchemaShape(t);
  }

  /** The declarations the CSS test looks for, with the token values they carry. */
  lemma ExpectedDeclarations(t: ThemeTokens)
    ensures "  --color-primary-500: " + t.colors.primary.s500 + ";" in RootLines(t)
    ensures Decl("spacing-", "4", t.spacing.s4) in RootLines(t)
    ensures Decl("font-", "sans", t.typography.fontFamily.sans) in RootLines(t)
    ensures Decl("radius-", "md", t.radii.md) in RootLines(t)
    ensures Decl("shadow-", "md", t.shadows.md) in RootLines(t)
    ensures Decl("transition-", "normal", t.transitions.normal) in RootLines(t)
  {
    assert RootLines(t)[6] == "  --color-primary-500: " + t.colors.primary.s500 + ";" by {
      ColorLine(t, 0, 5);
      PrimaryFiveHundredSpelled(t.colors.primary.s500);
    }
    GroupLines(t);
  }

  lemma GroupLines(t: ThemeTokens)
    ensures RootLines(t)[71] == Decl("spacing-", "4", t.spacing.s4)
    ensures RootLines(t)[78] == Decl("font-", "sans", t.typography.fontFamily.sans)
    ensures RootLines(t)[96] == Decl("radius-", "md", t.radii.md)
    ensures RootLines(t)[101] == Decl("shadow-", "md", t.shadows.md)
    ensures RootLines(t)[104] == Decl("transition-", "normal", t.transitions.normal)
  {
    GroupOrder(t);
    assert RootLines(t)[71] == RootLines(t)[67..78][4];
    assert RootLines(t)[78] == RootLines(t)[78..80][0];
    assert RootLines(t)[96] == RootLines(t)[94..100][2];
    assert RootLines(t)[101] == RootLines(t)[100..103][1];
    assert RootLines(t)[104] == RootLines(t)[103..106][1];
  }

  lemma PrimaryFiveHundredSpelled(v: string)
    ensures Decl("color-" + RoleKeys[0] + "-", ShadeKeys[5], v) == "  --color-primary-500: " + v + ";"
  {
    assert "color-" + RoleKeys[0] + "-" == "color-primary-";
    assert "  --" + "color-primary-" + "500" + ": " == "  --color-primary-500: ";
  }

  /** No token value spans two lines. */
  predicate SingleLineValues(t: ThemeTokens) {
    SingleLineColors(t.colors)
    && (forall e | e in t.spacing.Entries() :: FreeOf(e.1, '\n'))
    && (forall e | e in t.typography.fontFamily.Entries() :: FreeOf(e.1, '\n'))
    && (forall e | e in t.typography.fontSize.Entries() :: FreeOf(e.1, '\n'))
    && (forall e | e in t.typography.fontWeight.Entries() :: FreeOf(e.1, '\n'))
    && (forall e | e in t.typography.lineHeight.Entries() :: FreeOf(e.1, '\n'))
    && (forall e | e in t.radii.Entries() :: FreeOf(e.1, '\n'))
    && (forall e | e in t.shadows.Entries() :: FreeOf(e.1, '\n'))
    && (forall e | e in t.transitions.Entries() :: FreeOf(e.1, '\n'))
  }

  predicate SingleLineColors(colors: ColorTokens) {
    var c := colors.Scales();
    forall r, k :: 0 <= r < 6 && 0 <= k < 11 ==> FreeOf(c[r].Values()[k], '\n')
  }

  predicate AllSingleLine(lines: seq<string>) {
    forall i :: 0 <= i < |lines| ==> FreeOf(lines[i], '\n')
  }

  lemma ConcatSingleLine(a: seq<string>, b: seq<string>)
    requires AllSingleLine(a) && AllSingleLine(b)
    ensures AllSingleLine(a + b)
  {
    forall i | 0 <= i < |a + b| ensures FreeOf((a + b)[i], '\n') {
      if i >= |a| {
        assert (a + b)[i] == b[i - |a|];
      }
    }
  }

  /** A declaration is one line when its prefix, key and value are. */
  lemma DeclSingleLine(prefix: string, key: string, value: string)
    requires FreeOf(prefix, '\n') && FreeOf(key, '\n') && FreeOf(value, '\n')
    ensures FreeOf(Decl(prefix, key, value), '\n')
  {
    var d := Decl(prefix, key, value);
    forall i | 0 <= i < |d| ensures d[i] != '\n' {
      if i < 4 {
      } else if i < 4 + |prefix| {
        assert d[i] == prefix[i - 4];
      } else if i < 4 + |prefix| + |key| {
        assert d[i] == key[i - 4 - |prefix|];
      } else if i < 6 + |prefix| + |key| {
      } else if i < 6 + |prefix| + |key| + |value| {
        assert d[i] == value[i - 6 - |prefix| - |key|];
      }
    }
  }

  /** The keys of a record are single words, so its declarations are single lines. */
  lemma DeclsSingleLine(prefix: string, keys: seq<string>, values: seq<string>)
    requires |keys| == |values| && FreeOf(prefix, '\n')
    requires forall k :: 0 <= k < |keys| ==> FreeOf(keys[k], '\n')
    requires forall x | x in Zip(keys, values) :: FreeOf(x.1, '\n')
    ensures AllSingleLine(Decls(prefix, Zip(keys, values)))
  {
    var e := Zip(keys, values);
    forall k | 0 <= k < |e| ensures FreeOf(Decls(prefix, e)[k], '\n') {
      assert e[k] in e;
      DeclSingleLine(prefix, e[k].0, e[k].1);
    }
  }

  /** Shade and spacing keys are digit strings. */
  lemma NumericKeysSingleLine()
    ensures forall k :: 0 <= k < 11 ==> FreeOf(ShadeKeys[k], '\n')
    ensures forall k :: 0 <= k < 11 ==> FreeOf(SpacingKeys[k], '\n')
  {
    forall k | 0 <= k < 11 ensures FreeOf(ShadeKeys[k], '\n') && FreeOf(SpacingKeys[k], '\n') {
      assert AllDigits(ShadeKeys[k]) && AllDigits(SpacingKeys[k]);
    }
  }

  lemma ScaleSingleLine(prefix: string, s: ColorScale)
    requires FreeOf(prefix, '\n')
    requires forall k :: 0 <= k < 11 ==> FreeOf(s.Values()[k], '\n')
    ensures AllSingleLine(Decls(prefix, s.Entries()))
  {
    NumericKeysSingleLine();
    forall x | x in Zip(ShadeKeys, s.Values()) ensures FreeOf(x.1, '\n') {
      var k :| 0 <= k < 11 && Zip(ShadeKeys, s.Values())[k] == x;
    }
    DeclsSingleLine(prefix, ShadeKeys, s.Values());
  }

  lemma {:induction false} ColorDeclsSingleLine(c: ColorTokens, n: nat)
    requires SingleLineColors(c) && n <= 6
    ensures AllSingleLine(ColorDecls(c, n))
  {
    if n > 0 {
      ColorDeclsSingleLine(c, n - 1);
      var s := c.Scales()[n - 1];
      var prefix := "color-" + RoleKeys[n - 1] + "-";
      assert FreeOf(prefix, '\n');
      ScaleSingleLine(prefix, s);
      ConcatSingleLine(ColorDecls(c, n - 1), Decls(prefix, s.Entries()));
    }
  }

  lemma TypographySingleLine(ty: TypographyTokens)
    requires forall e | e in ty.fontFamily.Entries() :: FreeOf(e.1, '\n')
    requires forall e | e in ty.fontSize.Entries() :: FreeOf(e.1, '\n')
    requires forall e | e in ty.fontWeight.Entries() :: FreeOf(e.1, '\n')
    requires forall e | e in ty.lineHeight.Entries() :: FreeOf(e.1, '\n')
    ensures AllSingleLine(Decls("font-", ty.fontFamily.Entries()))
    ensures AllSingleLine(Decls("text-", ty.fontSize.Entries()))
    ensures AllSingleLine(Decls("font-weight-", ty.fontWeight.Entries()))
    ensures AllSingleLine(Decls("leading-", ty.lineHeight.Entries()))
  {
    var f, s, w, h := ty.fontFamily, ty.fontSize, ty.fontWeight, ty.lineHeight;
    DeclsSingleLine("font-", FontFamilyKeys, [f.sans, f.mono]);
    DeclsSingleLine("text-", FontSizeKeys, [s.xs, s.sm, s.base, s.lg, s.xl, s.x2xl, s.x3xl]);
    DeclsSingleLine("font-weight-", FontWeightKeys, [w.normal, w.medium, w.semibold, w.bold]);
    DeclsSingleLine("leading-", LineHeightKeys, [h.tight, h.normal, h.relaxed]);
  }

  lemma SpacingSingleLine(sp: SpacingTokens)
    requires forall e | e in sp.Entries() :: FreeOf(e.1, '\n')
    ensures AllSingleLine(Decls("spacing-", sp.Entries()))
  {
    NumericKeysSingleLine();
    DeclsSingleLine("spacing-", SpacingKeys, sp.Values());
  }

  lemma TrailingGroupsSingleLine(r: RadiiTokens, sh: ShadowTokens, tr: TransitionTokens)
    requires forall e | e in r.Entries() :: FreeOf(e.1, '\n')
    requires forall e | e in sh.Entries() :: FreeOf(e.1, '\n')
    requires forall e | e in tr.Entries() :: FreeOf(e.1, '\n')
    ensures AllSingleLine(Decls("radius-", r.Entries()))
    ensures AllSingleLine(Decls("shadow-", sh.Entries()))
    ensures AllSingleLine(Decls("transition-", tr.Entries()))
  {
    DeclsSingleLine("radius-", RadiiKeys, [r.none, r.sm, r.md, r.lg, r.xl, r.full]);
    DeclsSingleLine("shadow-", ShadowKeys, [sh.sm, sh.md, sh.lg]);
    DeclsSingleLine("transition-", TransitionKeys, [tr.fast, tr.normal, tr.slow]);
  }

  /** Every line of the `:root` block is one line of the CSS text. */
  lemma RootLinesSingleLine(t: ThemeTokens)
    requires SingleLineValues(t)
    ensures AllSingleLine(RootLines(t))
  {
    var ty := t.typography;
    ColorDeclsSingleLine(t.colors, 6);
    TypographySingleLine(ty);
    SpacingSingleLine(t.spacing);
    TrailingGroupsSingleLine(t.radii, t.shadows, t.transitions);
    var l1 := [":root {"] + ColorDecls(t.colors, 6);
    ConcatSingleLine([":root {"], ColorDecls(t.colors, 6));
    var l2 := l1 + Decls("spacing-", t.spacing.Entries());
    ConcatSingleLine(l1, Decls("spacing-", t.spacing.Entries()));
    var l3 := l2 + Decls("font-", ty.fontFamily.Entries());
    ConcatSingleLine(l2, Decls("font-", ty.fontFamily.Entries()));
    var l4 := l3 + Decls("text-", ty.fontSize.Entries());
    ConcatSingleLine(l3, Decls("text-", ty.fontSize.Entries()));
    var l5 := l4 + Decls("font-weight-", ty.fontWeight.Entries());
    ConcatSingleLine(l4, Decls("font-weight-", ty.fontWeight.Entries()));
    var l6 := l5 + Decls("leading-", ty.lineHeight.Entries());
    ConcatSingleLine(l5, Decls("leading-", ty.lineHeight.Entries()));
    var l7 := l6 + Decls("radius-", t.radii.Entries());
    ConcatSingleLine(l6, Decls("radius-", t.radii.Entries()));
    var l8 := l7 + Decls("shadow-", t.shadows.Entries());
    ConcatSingleLine(l7, Decls("shadow-", t.shadows.Entries()));
    var l9 := l8 + Decls("transition-", t.transitions.Entries());
    ConcatSingleLine(l8, Decls("transition-", t.transitions.Entries()));
    ConcatSingleLine(l9, ["}"]);
    assert RootLines(t) == l9 + ["}"];
  }

  /**
   * Splitting the CSS text at newlines gives back exactly the `:root` lines:
   * the text is `:root {`, one line per leaf token, and `}`.
   */
  lemma CssLines(t: ThemeTokens)
    requires SingleLineValues(t)
    ensures Split(Join(RootLines(t), "\n"), '\n') == RootLines(t)
    ensures |Split(Join(RootLines(t), "\n"), '\n')| == 107
  {
    RootLinesSingleLine(t);
    RootLinesShape(t);
    SplitJoin(RootLines(t), '\n');
  }
}
