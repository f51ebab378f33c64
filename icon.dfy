/**
 * `Icon`: the generic icon that draws whatever children it is given, with
 * the same attribute rules as the icons `createIcon` makes.
 */
module Icon {
  import opened Text
  import opened Js
  import opened Children
  import opened IconTypes
  import CreateIcon

  const DisplayName: string := "Icon"

  /**
   * Size (24 when omitted) is both the width and the height and the colour
   * (`currentColor` when omitted) is the stroke; the icon is decorative
   * exactly when `aria-label` is absent or empty, and an `img` otherwise;
   * the children are the content, unchanged.
   */
  function Icon(p: IconProps, children: seq<Node>): (s: Svg)
    ensures s.width == s.height
    ensures p.size.Some? ==> s.width == p.size.value
    ensures p.size.None? ==> s.width == Pixels(24)
    ensures p.color.Some? ==> s.stroke == p.color.value
    ensures p.color.None? ==> s.stroke == "currentColor"
    ensures s.ariaHidden <==> !Truthy(p.ariaLabel)
    ensures s.role.Some? <==> Truthy(p.ariaLabel)
    ensures s.role.Some? ==> s.role.value == "img"
    ensures s.ariaLabel == p.ariaLabel
    ensures s.content == children
  {
    var size := if p.size.Some? then p.size.value else DefaultSize;
    var color := if p.color.Some? then p.color.value else DefaultColor;
    var decorative := !Truthy(p.ariaLabel);
    Svg(size, size, "0 0 24 24", "none", color, 2, "round", "round",
        decorative, p.ariaLabel, if decorative then None else Some("img"), children)
  }

  /**
   * `Icon` with some children renders exactly what an icon made by
   * `createIcon("Icon", children)` renders, and carries the same name.
   */
  lemma MatchesFactory(p: IconProps, children: seq<Node>)
    ensures Icon(p, children) == CreateIcon.Render(CreateIcon.CreateIcon(DisplayName, children), p)
    ensures CreateIcon.CreateIcon(DisplayName, children).displayName == "Icon"
  {
  }
}
