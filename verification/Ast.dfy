/** The array form of an expression (src/defs.h:52-61): nodes in pre-order, each left child
    carrying the index of its sibling. */
module Ast {
  import opened Syntax
  import opened Seqs

  datatype Token = TApp | TFn(p: Prim)

  /** `tok` is `None` in a node that calloc has zeroed and nothing has filled yet. */
  datatype Node = Node(tok: Option<Token>, sibling: nat)

  function Flatten(e: Expr): seq<Token> {
    match e
    case Leaf(p) => [TFn(p)]
    case App(l, r) => [TApp] + Flatten(l) + Flatten(r)
  }

  function Size(e: Expr): (n: nat)
    ensures n == |Flatten(e)| && n >= 1
  {
    if e.Leaf? then 1 else 1 + Size(e.l) + Size(e.r)
  }

  function Apps(e: Expr): (n: nat)
    ensures Size(e) == 2 * n + 1
  {
    if e.Leaf? then 0 else 1 + Apps(e.l) + Apps(e.r)
  }

  /** The nodes of `e` when its root has index `base` and sibling field `sib`. */
  function Layout(e: Expr, base: nat, sib: nat): (nodes: seq<Node>)
    ensures |nodes| == Size(e)
  {
    match e
    case Leaf(p) => [Node(Some(TFn(p)), sib)]
    case App(l, r) =>
      var right := base + 1 + Size(l);
      [Node(Some(TApp), sib)] + Layout(l, base + 1, right) + Layout(r, right, 0)
  }

  /** `e` is stored in `nodes` from index `i` on, as far as a reader can tell. */
  ghost predicate At(nodes: seq<Node>, i: nat, e: Expr)
    decreases e
  {
    && i + Size(e) <= |nodes|
    && match e
       case Leaf(p) => nodes[i].tok == Some(TFn(p))
       case App(l, r) =>
         && nodes[i].tok == Some(TApp)
         && nodes[i + 1].sibling == i + 1 + Size(l)
         && At(nodes, i + 1, l)
         && At(nodes, i + 1 + Size(l), r)
  }

  /** A laid-out expression can be read where it lies. */
  lemma {:induction false} LayoutAt(nodes: seq<Node>, e: Expr, base: nat, sib: nat)
    requires Has(nodes, base, Layout(e, base, sib))
    ensures At(nodes, base, e) && nodes[base].sibling == sib
    decreases e
  {
    hide Has, Layout;
    LayoutParts(nodes, e, base, sib);
    if e.App? {
      var right := base + 1 + Size(e.l);
      LayoutAt(nodes, e.l, base + 1, right);
      LayoutAt(nodes, e.r, right, 0);
    }
  }

  lemma LayoutParts(nodes: seq<Node>, e: Expr, base: nat, sib: nat)
    requires Has(nodes, base, Layout(e, base, sib))
    ensures base + Size(e) <= |nodes|
    ensures nodes[base] == Node(Some(if e.App? then TApp else TFn(e.p)), sib)
    ensures e.App? ==>
      var right := base + 1 + Size(e.l);
      Has(nodes, base + 1, Layout(e.l, base + 1, right)) && Has(nodes, right, Layout(e.r, right, 0))
  {
    if e.Leaf? {
      LoneHas(nodes, base, Node(Some(TFn(e.p)), sib));
    } else {
      hide Has;
      var right := base + 1 + Size(e.l);
      var root, ls, rs := [Node(Some(TApp), sib)], Layout(e.l, base + 1, right), Layout(e.r, right, 0);
      HasFour(nodes, base, root, ls, rs, []);
      LoneHas(nodes, base, Node(Some(TApp), sib));
    }
  }

  /** Prefix notation is read in one way only. */
  lemma {:induction false} FlattenUnique(a: Expr, s: seq<Token>, b: Expr, t: seq<Token>)
    requires Flatten(a) + s == Flatten(b) + t
    ensures a == b && s == t
    decreases a
  {
    var x, y := Flatten(a) + s, Flatten(b) + t;
    assert x[0] == Flatten(a)[0] && y[0] == Flatten(b)[0];
    match (a, b) {
      case (App(l, r), App(l', r')) =>
        assert x[1..] == Flatten(l) + (Flatten(r) + s);
        assert y[1..] == Flatten(l') + (Flatten(r') + t);
        FlattenUnique(l, Flatten(r) + s, l', Flatten(r') + t);
        FlattenUnique(r, s, r', t);
      case (Leaf(_), Leaf(_)) =>
        assert x[1..] == s && y[1..] == t;
      case _ =>
    }
  }
}
