/**
 * The props every icon accepts and the `<svg>` element an icon renders.
 * The remaining SVG attributes a caller may spread in are not modelled.
 */
module IconTypes {
  import opened Text
  import opened Children

  /** `size`: a number of pixels or a CSS length string. */
  datatype Size = Pixels(n: int) | Length(s: string)

  datatype IconProps = IconProps(size: Option<Size>, color: Option<string>, ariaLabel: Option<string>)

  datatype Svg = Svg(
    width: Size,
    height: Size,
    viewBox: string,
    fill: string,
    stroke: string,
    strokeWidth: int,
    strokeLinecap: string,
    strokeLinejoin: string,
    ariaHidden: bool,
    ariaLabel: Option<string>,
    role: Option<string>,
    content: seq<Node>)

  const DefaultSize: Size := Pixels(24)
  const DefaultColor: string := "currentColor"
}
