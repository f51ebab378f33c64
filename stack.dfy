/**
 * `Stack` with a divider puts one divider between each consecutive pair of
 * its truthy children; without one it passes its children through as given.
 */
module Stack {
  import opened Text
  import opened Children

  /** The rendered contents of a stack for the given children and optional divider. */
  function Stack(children: seq<Node>, divider: Option<Node>): seq<Node> {
    if divider.Some? && TruthyNode(divider.value) then Interleave(ChildArray(children), divider.value)
    else children
  }

  /**
   * With a truthy divider and n ≥ 1 truthy children the stack holds 2n − 1
   * nodes: child i at 2i and the divider between children i and i + 1, none
   * after the last; the children read back in order.
   */
  lemma StackWithDivider(children: seq<Node>, d: Node)
    requires TruthyNode(d)
    ensures var items, out := ChildArray(children), Stack(children, Some(d));
      (items == [] ==> out == [])
      && (items != [] ==> |out| == 2 * |items| - 1 && out[|out| - 1] == items[|items| - 1])
      && (forall i :: 0 <= i < |items| ==> out[2 * i] == items[i])
      && (forall i :: 0 <= i < |items| - 1 ==> out[2 * i + 1] == d)
      && Evens(out) == items
  {
    InterleaveLayout(ChildArray(children), d);
    EvensInterleave(ChildArray(children), d);
  }

  /** Without a truthy divider nothing is filtered or added. */
  lemma StackWithoutDivider(children: seq<Node>, divider: Option<Node>)
    requires divider.None? || !TruthyNode(divider.value)
    ensures Stack(children, divider) == children
  {
  }
}
