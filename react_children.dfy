/**
 * Children lists as Breadcrumb and Stack see them: `React.Children.toArray`
 * (which leaves out null, undefined and booleans), `.filter(Boolean)`, and
 * the index-aware `map` that puts a separator after every child but the last.
 */
module Children {

  /** A child node, as far as its truthiness and identity matter. */
  datatype Node =
    | Null
    | Undefined
    | Bool(b: bool)
    | Text(s: string)
    | Num(n: int)
    | Element(tag: string)

  /** JavaScript truthiness of a node (numbers are integers here, so NaN is out). */
  predicate TruthyNode(n: Node) {
    match n
    case Null => false
    case Undefined => false
    case Bool(b) => b
    case Text(s) => s != ""
    case Num(k) => k != 0
    case Element(_) => true
  }

  /** `React.Children.toArray`: null, undefined and booleans are left out. */
  function ToArray(children: seq<Node>): (r: seq<Node>)
    ensures forall i :: 0 <= i < |r| ==> !(r[i].Null? || r[i].Undefined? || r[i].Bool?)
  {
    if children == [] then []
    else if children[0].Null? || children[0].Undefined? || children[0].Bool? then ToArray(children[1..])
    else [children[0]] + ToArray(children[1..])
  }

  /** `Array.prototype.filter(Boolean)`. */
  function FilterTruthy(xs: seq<Node>): (r: seq<Node>)
  {
    if xs == [] then [] else (if TruthyNode(xs[0]) then [xs[0]] else []) + FilterTruthy(xs[1..])
  }

  /** `React.Children.toArray(children).filter(Boolean)`. */
  function ChildArray(children: seq<Node>): seq<Node> {
    FilterTruthy(ToArray(children))
  }

  /** `xs` is `ys` with some elements left out, order kept. */
  predicate Subsequence(xs: seq<Node>, ys: seq<Node>)
    decreases |ys|
  {
    xs == [] || (ys != [] && ((xs[0] == ys[0] && Subsequence(xs[1..], ys[1..])) || Subsequence(xs, ys[1..])))
  }

  lemma {:induction false} FilterTruthyKeeps(xs: seq<Node>)
    ensures Subsequence(FilterTruthy(xs), xs)
    ensures forall n :: n in FilterTruthy(xs) <==> n in xs && TruthyNode(n)
  {
    if xs != [] {
      FilterTruthyKeeps(xs[1..]);
      assert xs == [xs[0]] + xs[1..];
      var f := FilterTruthy(xs);
      if TruthyNode(xs[0]) {
        assert f[0] == xs[0] && f[1..] == FilterTruthy(xs[1..]);
      } else {
        assert f == FilterTruthy(xs[1..]);
      }
    }
  }

  lemma {:induction false} ToArrayKeeps(xs: seq<Node>)
    ensures Subsequence(ToArray(xs), xs)
    ensures forall n :: n in ToArray(xs) <==> n in xs && !(n.Null? || n.Undefined? || n.Bool?)
  {
    if xs != [] {
      ToArrayKeeps(xs[1..]);
      assert xs == [xs[0]] + xs[1..];
    }
  }

  lemma {:induction false} SubsequenceTrans(xs: seq<Node>, ys: seq<Node>, zs: seq<Node>)
    requires Subsequence(xs, ys) && Subsequence(ys, zs)
    ensures Subsequence(xs, zs)
    decreases |zs|
  {
    if xs != [] {
      assert ys != [] && zs != [];
      if ys[0] == zs[0] && Subsequence(ys[1..], zs[1..]) {
        if xs[0] == ys[0] && Subsequence(xs[1..], ys[1..]) {
          SubsequenceTrans(xs[1..], ys[1..], zs[1..]);
        } else {
          SubsequenceTrans(xs, ys[1..], zs[1..]);
        }
      } else {
        SubsequenceTrans(xs, ys, zs[1..]);
      }
    }
  }

  /**
   * The child array holds exactly the truthy children other than `true`
   * (which `toArray` already leaves out), in their original order.
   */
  lemma ChildArrayTruthy(children: seq<Node>)
    ensures Subsequence(ChildArray(children), children)
    ensures forall n :: n in ChildArray(children) <==> n in children && TruthyNode(n) && !n.Bool?
  {
    ToArrayKeeps(children);
    FilterTruthyKeeps(ToArray(children));
    SubsequenceTrans(ChildArray(children), ToArray(children), children);
  }

  // ---------------------------------------------------------------------
  // Separators between consecutive children
  // ---------------------------------------------------------------------

  /** What the index-aware `map` gives child i: the child, then `sep` unless i is last. */
  function Group<T>(xs: seq<T>, sep: T, i: nat): seq<T>
    requires i < |xs|
  {
    [xs[i]] + (if i < |xs| - 1 then [sep] else [])
  }

  function Flatten<T>(groups: seq<seq<T>>): seq<T> {
    if groups == [] then [] else groups[0] + Flatten(groups[1..])
  }

  /** The rendered list: the groups of all children, one after another. */
  function Interleave<T>(xs: seq<T>, sep: T): seq<T> {
    Flatten(seq(|xs|, i requires 0 <= i < |xs| => Group(xs, sep, i)))
  }

  /** Peeling off the first child leaves the interleaving of the rest. */
  lemma InterleaveCons<T>(xs: seq<T>, sep: T)
    requires |xs| >= 2
    ensures Interleave(xs, sep) == [xs[0], sep] + Interleave(xs[1..], sep)
  {
    var gs := seq(|xs|, i requires 0 <= i < |xs| => Group(xs, sep, i));
    var rest := seq(|xs| - 1, i requires 0 <= i < |xs| - 1 => Group(xs[1..], sep, i));
    assert gs[1..] == rest;
  }

  lemma InterleaveOne<T>(x: T, sep: T)
    ensures Interleave([x], sep) == [x]
  {
    var gs := seq(1, i requires 0 <= i < 1 => Group([x], sep, i));
    assert Interleave([x], sep) == Flatten(gs);
    assert gs[0] == [x] && gs[1..] == [];
  }

  /**
   * With n ≥ 1 children the list has 2n − 1 entries: child i at 2i and the
   * separator at 2i + 1. No children give an empty list.
   */
  lemma {:induction false} InterleaveLayout<T>(xs: seq<T>, sep: T)
    ensures xs == [] ==> Interleave(xs, sep) == []
    ensures xs != [] ==> |Interleave(xs, sep)| == 2 * |xs| - 1
    ensures forall i :: 0 <= i < |xs| ==> 2 * i < |Interleave(xs, sep)| && Interleave(xs, sep)[2 * i] == xs[i]
    ensures forall i :: 0 <= i < |xs| - 1 ==> Interleave(xs, sep)[2 * i + 1] == sep
  {
    if |xs| == 1 {
      assert xs == [xs[0]];
      InterleaveOne(xs[0], sep);
    } else if |xs| >= 2 {
      InterleaveLayout(xs[1..], sep);
      InterleaveCons(xs, sep);
      var r := Interleave(xs, sep);
      var t := Interleave(xs[1..], sep);
      forall i | 1 <= i < |xs| ensures r[2 * i] == xs[i] {
        assert r[2 * i] == t[2 * (i - 1)];
      }
      forall i | 1 <= i < |xs| - 1 ensures r[2 * i + 1] == sep {
        assert r[2 * i + 1] == t[2 * (i - 1) + 1];
      }
    }
  }

  /** The entries at even positions, read back. */
  function Evens<T>(r: seq<T>): (e: seq<T>)
    ensures |e| == (|r| + 1) / 2
  {
    seq((|r| + 1) / 2, i requires 0 <= i < (|r| + 1) / 2 => r[2 * i])
  }

  /** Reading the even positions of the rendered list gives the children back. */
  lemma EvensInterleave<T>(xs: seq<T>, sep: T)
    ensures Evens(Interleave(xs, sep)) == xs
  {
    InterleaveLayout(xs, sep);
  }

  /** A separator is never first or last: both ends are children. */
  lemma InterleaveEnds<T>(xs: seq<T>, sep: T)
    requires xs != []
    ensures Interleave(xs, sep)[0] == xs[0]
    ensures Interleave(xs, sep)[|Interleave(xs, sep)| - 1] == xs[|xs| - 1]
  {
    InterleaveLayout(xs, sep);
  }
}
