/**
 * `Button`: either hands its children to the child element (`asChild`), or
 * renders a native button whose content is the spinner, the left icon, the
 * children and the right icon, each when its condition holds.
 */
module Button {
  import opened Text
  import opened Js
  import opened Children

  datatype ButtonProps = ButtonProps(
    asChild: Option<bool>,
    loading: Option<bool>,
    disabled: Option<bool>,
    leftIcon: Node,
    rightIcon: Node,
    children: seq<Node>)

  /** What an `{icon && <span>{icon}</span>}` slot renders. */
  datatype IconSlot =
    | Empty
    | Wrapped(icon: Node)
      /** A falsy number is itself the value of the `&&`, and React shows it as text. */
    | Stray(value: Node)

  datatype ButtonView =
    | Slot(children: seq<Node>)
    | Native(disabled: bool, spinner: bool, left: IconSlot, children: seq<Node>, right: IconSlot)

  function IconSlotOf(icon: Node): IconSlot {
    if TruthyNode(icon) then Wrapped(icon)
    else if icon.Num? then Stray(icon)
    else Empty
  }

  /**
   * With `asChild` only the children are passed on: no `disabled`, spinner
   * or icons. Otherwise the button is disabled exactly when `disabled` or
   * `loading` is set; the spinner shows exactly when loading; the left icon
   * exactly when not loading and given, so the spinner takes its place; the
   * right icon exactly when given, loading or not; the children sit between
   * them unchanged. A falsy `0` as an icon is rendered as the text `0`.
   */
  function Button(p: ButtonProps): (v: ButtonView)
    ensures v.Slot? <==> IsTrue(p.asChild)
    ensures v.children == p.children
    ensures v.Native? ==>
      (v.disabled <==> IsTrue(p.disabled) || IsTrue(p.loading))
      && (v.spinner <==> IsTrue(p.loading))
      && (v.left.Wrapped? <==> !IsTrue(p.loading) && TruthyNode(p.leftIcon))
      && (v.right.Wrapped? <==> TruthyNode(p.rightIcon))
      && (v.left.Wrapped? ==> v.left.icon == p.leftIcon)
      && (v.right.Wrapped? ==> v.right.icon == p.rightIcon)
      && (v.spinner ==> v.left.Empty?)
      && (v.left.Stray? <==> !IsTrue(p.loading) && p.leftIcon == Num(0))
      && (v.right.Stray? <==> p.rightIcon == Num(0))
  {
    var loading := IsTrue(p.loading);
    if IsTrue(p.asChild) then Slot(p.children)
    else
      Native(IsTrue(p.disabled) || loading,
             loading,
             if loading then Empty else IconSlotOf(p.leftIcon),
             p.children,
             IconSlotOf(p.rightIcon))
  }
}
