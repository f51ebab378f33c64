/**
 * `Breadcrumb` lays its children out as list items with a separator item
 * between each consecutive pair; `BreadcrumbItem` chooses between a link and
 * a plain span marked as the current page.
 */
module Breadcrumb {
  import opened Text
  import opened Js
  import opened Children

  /** An `<li>` of the breadcrumb list: a child, or an `aria-hidden` separator. */
  datatype ListItem = Crumb(child: Node) | Separator(content: Node)

  /**
   * The separator actually used: a destructuring default replaces both an
   * omitted prop and an explicit `undefined` with `/`; any other value,
   * falsy or not, is kept.
   */
  function SeparatorOf(separator: Option<Node>): (s: Node)
    ensures separator.None? || separator.value.Undefined? ==> s == Text("/")
    ensures separator.Some? && !separator.value.Undefined? ==> s == separator.value
    ensures !s.Undefined?
  {
    if separator.Some? && !separator.value.Undefined? then separator.value else Text("/")
  }

  /** The `<ol>` contents for the given children and optional separator. */
  function Breadcrumb(children: seq<Node>, separator: Option<Node>): seq<ListItem> {
    var items := ChildArray(children);
    Interleave(seq(|items|, i requires 0 <= i < |items| => Crumb(items[i])), Separator(SeparatorOf(separator)))
  }

  /** The crumbs of a list, read back in order. */
  function Crumbs(list: seq<ListItem>): seq<Node>
    requires forall i :: 0 <= i < |list| && i % 2 == 0 ==> list[i].Crumb?
  {
    seq((|list| + 1) / 2, i requires 0 <= i < (|list| + 1) / 2 => list[2 * i].child)
  }

  /**
   * n truthy children give 2n − 1 list items (none for none): crumb i at 2i
   * and the separator between crumbs i and i + 1, so a separator is never
   * first or last, and the crumbs read back are the children in order.
   * Without a separator prop, or with `separator={undefined}`, the
   * separator is `/`; otherwise it is the given node.
   */
  lemma BreadcrumbLayout(children: seq<Node>, separator: Option<Node>)
    ensures var items, list := ChildArray(children), Breadcrumb(children, separator);
      (items == [] ==> list == [])
      && (items != [] ==> |list| == 2 * |items| - 1 && list[0].Crumb? && list[|list| - 1].Crumb?)
      && (forall i :: 0 <= i < |items| ==> list[2 * i] == Crumb(items[i]))
      && (forall i :: 0 <= i < |items| - 1 ==> list[2 * i + 1] == Separator(SeparatorOf(separator)))
    ensures separator.None? || (separator.Some? && separator.value.Undefined?) ==>
      forall i :: 0 <= i < |ChildArray(children)| - 1 ==> Breadcrumb(children, separator)[2 * i + 1] == Separator(Text("/"))
    ensures separator.Some? && !separator.value.Undefined? ==>
      forall i :: 0 <= i < |ChildArray(children)| - 1 ==> Breadcrumb(children, separator)[2 * i + 1] == Separator(separator.value)
  {
    var items := ChildArray(children);
    var crumbs := seq(|items|, i requires 0 <= i < |items| => Crumb(items[i]));
    var list := Breadcrumb(children, separator);
    InterleaveLayout(crumbs, Separator(SeparatorOf(separator)));
    if items != [] {
      assert list[2 * 0] == crumbs[0];
      assert list[2 * (|items| - 1)] == crumbs[|items| - 1];
    }
  }

  /** Reading the crumbs back gives exactly the truthy children, in order. */
  lemma BreadcrumbCrumbs(children: seq<Node>, separator: Option<Node>)
    ensures var list := Breadcrumb(children, separator);
      (forall i :: 0 <= i < |list| && i % 2 == 0 ==> list[i].Crumb?)
      && Crumbs(list) == ChildArray(children)
  {
    var items := ChildArray(children);
    var list := Breadcrumb(children, separator);
    BreadcrumbLayout(children, separator);
    forall i | 0 <= i < |list| && i % 2 == 0 ensures list[i].Crumb? {
      assert list[2 * (i / 2)] == Crumb(items[i / 2]);
    }
  }

  /** What `BreadcrumbItem` renders. */
  datatype ItemView = Link(href: string) | Span(ariaCurrent: Option<string>)

  /**
   * `BreadcrumbItem`: a link when `href` is set and the item is not current,
   * otherwise a span carrying `aria-current="page"` exactly when current.
   */
  function BreadcrumbItem(href: Option<string>, current: Option<bool>): (v: ItemView)
    ensures v.Link? <==> Truthy(href) && !IsTrue(current)
    ensures v.Link? ==> v.href == href.value
    ensures v.Span? ==> (v.ariaCurrent == Some("page") <==> IsTrue(current))
    ensures v.Span? ==> (v.ariaCurrent.Some? ==> v.ariaCurrent == Some("page"))
  {
    if Truthy(href) && !IsTrue(current) then Link(href.value)
    else Span(if IsTrue(current) then Some("page") else None)
  }

  /** The current page is never a link, whatever `href` says. */
  lemma CurrentIsNotALink(href: Option<string>)
    ensures BreadcrumbItem(href, Some(true)) == Span(Some("page"))
  {
  }
}
