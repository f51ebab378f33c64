/**
 * `createIcon`: makes an icon component from a display name and the SVG
 * shapes it draws. A component is a value here: its name, its shapes and
 * the render function applied to it.
 */
module CreateIcon {
  import opened Text
  import opened Js
  import opened Children
  import opened IconTypes

  datatype IconComponent = IconComponent(displayName: string, path: seq<Node>)

  /** The component `createIcon(displayName, path)` returns. */
  function CreateIcon(displayName: string, path: seq<Node>): (c: IconComponent)
    ensures c.displayName == displayName
    ensures c.path == path
  {
    IconComponent(displayName, path)
  }

  /**
   * Rendering a created icon: size (24 when omitted) is both the width and
   * the height and the colour (`currentColor` when omitted) is the stroke.
   * Without a non-empty `aria-label` the icon is decorative: hidden from
   * assistive technology and without a role. With one it is an `img` and
   * keeps the label. The component's shapes are the content.
   */
  function Render(c: IconComponent, p: IconProps): (s: Svg)
    ensures s.width == s.height
    ensures p.size.Some? ==> s.width == p.size.value
    ensures p.size.None? ==> s.width == Pixels(24)
    ensures p.color.Some? ==> s.stroke == p.color.value
    ensures p.color.None? ==> s.stroke == "currentColor"
    ensures s.ariaHidden <==> !Truthy(p.ariaLabel)
    ensures s.role.Some? <==> Truthy(p.ariaLabel)
    ensures s.role.Some? ==> s.role.value == "img"
    ensures s.ariaHidden <==> s.role.None?
    ensures s.ariaLabel == p.ariaLabel
    ensures s.content == c.path
    ensures s.viewBox == "0 0 24 24" && s.fill == "none" && s.strokeWidth == 2
  {
    var size := if p.size.Some? then p.size.value else DefaultSize;
    var color := if p.color.Some? then p.color.value else DefaultColor;
    var decorative := !Truthy(p.ariaLabel);
    Svg(size, size, "0 0 24 24", "none", color, 2, "round", "round",
        decorative, p.ariaLabel, if decorative then None else Some("img"), c.path)
  }
}
