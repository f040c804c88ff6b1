/** The iterative prefix parser (src/parser.c:31-85): tokens go one by one into a pre-order node
    array, with a stack of the applications that still lack a child. */
module Parser {
  import opened Syntax
  import opened Seqs
  import opened Ast

  /** An expression of which only the first tokens have been seen. */
  datatype Tree = Hole | Tip(p: Prim) | Pair(l: Tree, r: Tree)

  function Holes(t: Tree): nat {
    match t
    case Hole => 1
    case Tip(_) => 0
    case Pair(l, r) => Holes(l) + Holes(r)
  }

  /** Left children are filled first. */
  predicate Neat(t: Tree) {
    t.Pair? ==> Neat(t.l) && Neat(t.r) && (t.r.Hole? || Holes(t.l) == 0)
  }

  function Fresh(tok: Token): Tree {
    if tok.TApp? then Pair(Hole, Hole) else Tip(tok.p)
  }

  /** Put the next token into the leftmost hole. */
  function Fill(t: Tree, tok: Token): Tree
    requires Holes(t) > 0
  {
    match t
    case Hole => Fresh(tok)
    case Pair(l, r) => if Holes(l) > 0 then Pair(Fill(l, tok), r) else Pair(l, Fill(r, tok))
  }

  function Tokens(t: Tree): seq<Token> {
    match t
    case Hole => []
    case Tip(p) => [TFn(p)]
    case Pair(l, r) => [TApp] + Tokens(l) + Tokens(r)
  }

  /** The nodes written so far; a left child learns its sibling's index when the sibling arrives. */
  function Nodes(t: Tree, base: nat, sib: nat): (nodes: seq<Node>)
    ensures |nodes| == |Tokens(t)|
  {
    match t
    case Hole => []
    case Tip(p) => [Node(Some(TFn(p)), sib)]
    case Pair(l, r) =>
      var right := base + 1 + |Tokens(l)|;
      [Node(Some(TApp), sib)] + Nodes(l, base + 1, if r.Hole? then 0 else right) + Nodes(r, right, 0)
  }

  /** The applications on the parser's stack, bottom first. */
  function Open(t: Tree, base: nat): seq<nat> {
    if !t.Pair? then []
    else if t.r.Hole? then [base] + Open(t.l, base + 1)
    else Open(t.r, base + 1 + |Tokens(t.l)|)
  }

  function Opened(tok: Token, at: nat): seq<nat> {
    if tok.TApp? then [at] else []
  }

  lemma {:induction false} NodesSibling(t: Tree, base: nat, sib: nat)
    requires !t.Hole?
    ensures Nodes(t, base, 0) != [] &&
        Nodes(t, base, sib) == Nodes(t, base, 0)[0 := Nodes(t, base, 0)[0].(sibling := sib)]
  {
  }

  lemma {:induction false} OpenIffHoles(t: Tree, base: nat)
    requires Neat(t) && !t.Hole?
    ensures Open(t, base) == [] <==> Holes(t) == 0
    decreases t
  {
    if t.Pair? && !t.r.Hole? {
      OpenIffHoles(t.r, base + 1 + |Tokens(t.l)|);
    }
  }

  /** The innermost application that lacks a child. */
  function Top(t: Tree, base: nat): nat
    requires Neat(t) && !t.Hole? && Holes(t) > 0
  {
    if !t.r.Hole? then Top(t.r, base + 1 + |Tokens(t.l)|)
    else if Holes(t.l) > 0 && !t.l.Hole? then Top(t.l, base + 1)
    else base
  }

  lemma {:induction false} FillTokens(t: Tree, tok: Token, base: nat)
    requires Neat(t) && Holes(t) > 0
    ensures var u := Fill(t, tok);
            Neat(u) && !u.Hole? && Tokens(u) == Tokens(t) + [tok] &&
                Holes(u) + 1 == Holes(t) + 2 * |Opened(tok, base)|
    decreases t
  {
    if t.Pair? {
      hide Tokens;
      TokensPair(t.l, t.r);
      if Holes(t.l) > 0 {
        FillTokens(t.l, tok, base);
        TokensPair(Fill(t.l, tok), t.r);
        assert [TApp] + Tokens(t.l) + [tok] + [] == [TApp] + (Tokens(t.l) + [tok]);
      } else {
        FillTokens(t.r, tok, base);
        TokensPair(t.l, Fill(t.r, tok));
        assert [TApp] + Tokens(t.l) + (Tokens(t.r) + [tok]) == [TApp] + Tokens(t.l) + Tokens(t.r) + [tok];
      }
    }
  }

  /** The parser's stack before and after a token; its top lacks its left child exactly if nothing
      has been written behind it. */
  lemma {:induction false} FillOpen(t: Tree, tok: Token, base: nat)
    requires Neat(t) && !t.Hole? && Holes(t) > 0
    ensures
      var end, top, open := base + |Tokens(t)|, Top(t, base), Open(t, base);
      && base <= top < end
      && open != [] && open[|open| - 1] == top
      && Open(Fill(t, tok), base) == (if top + 1 == end then open else open[..|open| - 1]) + Opened(tok, end)
    decreases t
  {
    hide Open, Tokens, Opened, Fill, Neat, Holes;
    NeatPair(t, tok);
    var l, r, right := t.l, t.r, base + 1 + |Tokens(t.l)|;
    OpenPair(l, r, base);
    TokensPair(l, r);
    if !r.Hole? {
      FillTokens(r, tok, base);
      FillOpen(r, tok, right);
      OpenPair(l, Fill(r, tok), base);
    } else if l.Hole? {
      OpenFresh(tok, base + 1);
      OpenPair(Fresh(tok), Hole, base);
      assert [base] + [] == [base];
    } else if Holes(l) > 0 {
      FillOpen(l, tok, base + 1);
      OpenPair(Fill(l, tok), Hole, base);
      PushUnder(base, Open(l, base + 1), Opened(tok, right));
    } else {
      OpenIffHoles(l, base + 1);
      OpenFresh(tok, right);
      OpenPair(l, Fresh(tok), base);
      assert [base] + [] == [base] && [base][..0] + Opened(tok, right) == Opened(tok, right);
    }
  }

  lemma NeatPair(t: Tree, tok: Token)
    requires Neat(t) && !t.Hole? && Holes(t) > 0
    ensures t.Pair? && Neat(t.l) && Neat(t.r) && (t.r.Hole? || Holes(t.l) == 0)
    ensures Holes(t) == Holes(t.l) + Holes(t.r) && Holes(Hole) == 1
    ensures Fill(t, tok) == if Holes(t.l) > 0 then Pair(Fill(t.l, tok), t.r) else Pair(t.l, Fill(t.r, tok))
    ensures Fill(Hole, tok) == Fresh(tok)
  {
  }

  lemma OpenPair(l: Tree, r: Tree, base: nat)
    ensures Open(Pair(l, r), base) == if r.Hole? then [base] + Open(l, base + 1) else Open(r, base + 1 + |Tokens(l)|)
    ensures l.Hole? ==> Open(l, base + 1) == []
  {
    hide Tokens;
  }

  lemma TokensPair(l: Tree, r: Tree)
    ensures Tokens(Pair(l, r)) == [TApp] + Tokens(l) + Tokens(r)
    ensures Tokens(l) == [] <==> l.Hole?
    ensures Tokens(r) == [] <==> r.Hole?
  {
  }

  lemma OpenFresh(tok: Token, base: nat)
    ensures Open(Fresh(tok), base) == Opened(tok, base) && !Fresh(tok).Hole?
  {
  }

  lemma PushUnder<T>(x: T, s: seq<T>, more: seq<T>)
    requires s != []
    ensures var u := [x] + s;
            u[|u| - 1] == s[|s| - 1] && u[..|u| - 1] + more == [x] + (s[..|s| - 1] + more) &&
                u + more == [x] + (s + more)
  {
  }

  /** A node more, and node `k` learns its sibling's index if it is there. */
  ghost predicate Grows(nodes: seq<Node>, k: nat, end: nat, tok: Token, after: seq<Node>) {
    && 0 < k <= |nodes|
    && after == (if k == |nodes| then nodes else nodes[k := nodes[k].(sibling := end)]) + [Node(Some(tok), 0)]
  }

  lemma GrowsBehind(head: seq<Node>, nodes: seq<Node>, k: nat, end: nat, tok: Token, after: seq<Node>)
    requires Grows(nodes, k, end, tok, after)
    ensures Grows(head + nodes, |head| + k, end, tok, head + after)
  {
    var x := [Node(Some(tok), 0)];
    if k < |nodes| {
      var n := nodes[k].(sibling := end);
      assert (head + nodes)[|head| + k := n] + x == head + (nodes[k := n] + x);
    } else {
      assert head + nodes + x == head + (nodes + x);
    }
  }

  lemma GrowsEnd(nodes: seq<Node>, end: nat, tok: Token)
    requires nodes != []
    ensures Grows(nodes, |nodes|, end, tok, nodes + [Node(Some(tok), 0)])
  {
  }

  lemma GrowsRight(root: Node, left: seq<Node>, end: nat, tok: Token)
    requires left != []
    ensures Grows([root] + left, 1, end, tok, [root] + left[0 := left[0].(sibling := end)] + [Node(Some(tok), 0)])
  {
    assert ([root] + left)[1 := left[0].(sibling := end)] == [root] + left[0 := left[0].(sibling := end)];
  }

  lemma NodesPair(l: Tree, r: Tree, base: nat, sib: nat)
    ensures
      var right := base + 1 + |Tokens(l)|;
      && |Tokens(Pair(l, r))| == 1 + |Tokens(l)| + |Tokens(r)|
      && Nodes(Pair(l, r), base, sib)
         == [Node(Some(TApp), sib)] + Nodes(l, base + 1, if r.Hole? then 0 else right) + Nodes(r, right, 0)
      && (r.Hole? ==> Nodes(Pair(l, r), base, sib) == [Node(Some(TApp), sib)] + Nodes(l, base + 1, 0))
      && (l.Hole? ==> Tokens(l) == [] && Nodes(l, base + 1, 0) == [])
      && (r.Hole? ==> Tokens(r) == [])
  {
  }

  lemma FreshNodes(tok: Token, base: nat)
    ensures Nodes(Fresh(tok), base, 0) == [Node(Some(tok), 0)] && !Fresh(tok).Hole?
  {
  }

  /** The nodes before and after a token: one node more, and the left child of the top learns its
      sibling's index when it is the right child that arrives. */
  lemma {:induction false} FillNodes(t: Tree, tok: Token, base: nat, sib: nat)
    requires Neat(t) && !t.Hole? && Holes(t) > 0
    ensures base <= Top(t, base)
    ensures Grows(Nodes(t, base, sib), Top(t, base) + 1 - base, base + |Tokens(t)|, tok,
        Nodes(Fill(t, tok), base, sib))
    decreases t
  {
    hide Nodes, Tokens, Open, Grows, Fresh, Fill, Neat, Holes;
    NeatPair(t, tok);
    var l, r, right := t.l, t.r, base + 1 + |Tokens(t.l)|;
    var head := [Node(Some(TApp), sib)];
    NodesPair(l, r, base, sib);
    if !r.Hole? {
      FillTokens(r, tok, base);
      FillNodes(r, tok, right, 0);
      NodesPair(l, Fill(r, tok), base, sib);
      var left := head + Nodes(l, base + 1, right);
      GrowsBehind(left, Nodes(r, right, 0), Top(r, right) + 1 - right, right + |Tokens(r)|, tok,
          Nodes(Fill(r, tok), right, 0));
    } else if l.Hole? {
      FreshNodes(tok, base + 1);
      NodesPair(Fresh(tok), Hole, base, sib);
      assert head + [] == head;
      GrowsEnd(head, base + 1, tok);
    } else if Holes(l) > 0 {
      FillNodes(l, tok, base + 1, 0);
      NodesPair(Fill(l, tok), Hole, base, sib);
      GrowsBehind(head, Nodes(l, base + 1, 0), Top(l, base + 1) - base, right, tok, Nodes(Fill(l, tok), base + 1, 0));
    } else {
      FreshNodes(tok, right);
      NodesPair(l, Fresh(tok), base, sib);
      NodesSibling(l, base + 1, right);
      GrowsRight(Node(Some(TApp), sib), Nodes(l, base + 1, 0), right, tok);
    }
  }

  function ToExpr(t: Tree): Expr
    requires Holes(t) == 0
  {
    match t
    case Tip(p) => Leaf(p)
    case Pair(l, r) => App(ToExpr(l), ToExpr(r))
  }

  /** Without holes, the nodes are those of the expression. */
  lemma {:induction false} NodesLayout(t: Tree, base: nat, sib: nat)
    requires Holes(t) == 0
    ensures Tokens(t) == Flatten(ToExpr(t)) && Nodes(t, base, sib) == Layout(ToExpr(t), base, sib)
    decreases t
  {
    if t.Pair? {
      var right := base + 1 + |Tokens(t.l)|;
      NodesLayout(t.l, base + 1, right);
      NodesLayout(t.r, right, 0);
    }
  }

  lemma {:induction false} NodesFilled(t: Tree, base: nat, sib: nat)
    ensures forall i :: 0 <= i < |Nodes(t, base, sib)| ==> Nodes(t, base, sib)[i].tok.Some?
    decreases t
  {
    if t.Pair? {
      var right := base + 1 + |Tokens(t.l)|;
      NodesFilled(t.l, base + 1, if t.r.Hole? then 0 else right);
      NodesFilled(t.r, right, 0);
    }
  }

  /** How many expressions are missing after `tokens`, when `k` were missing before; None if a
      token comes when nothing is missing. */
  function Missing(tokens: seq<Token>, k: nat): Option<nat> {
    if tokens == [] then Some(k)
    else if k == 0 then None
    else Missing(tokens[1..], if tokens[0].TApp? then k + 1 else k - 1)
  }

  /** The tokens of an expression make up for one missing expression. */
  lemma {:induction false} MissingFlatten(e: Expr, rest: seq<Token>, k: nat)
    ensures Missing(Flatten(e) + rest, k + 1) == Missing(rest, k)
    decreases e
  {
    var s := Flatten(e) + rest;
    if e.App? {
      assert s[1..] == Flatten(e.l) + (Flatten(e.r) + rest);
      MissingFlatten(e.l, Flatten(e.r) + rest, k + 1);
      MissingFlatten(e.r, rest, k);
    } else {
      assert s[1..] == rest;
    }
  }

  /** The user's expression, so far, under the explicit `e` that ends the program. */
  function Guard(x: Tree): Tree {
    Pair(Tip(E), x)
  }

  /** The node array after the tokens of `x`. The guard's sibling index is set from the start. */
  ghost predicate Written(nodes: seq<Node>, x: Tree) {
    Stores(nodes, Nodes(Guard(x), 0, 0), Node(Some(TFn(E)), 2))
  }

  /** `nodes` stores `s`, but for a fixed node at index 1, and then nothing. */
  ghost predicate Stores(nodes: seq<Node>, s: seq<Node>, fixed: Node) {
    && 2 <= |s| <= |nodes|
    && nodes[..|s|] == s[1 := fixed]
    && forall i :: |s| <= i < |nodes| ==> nodes[i] == Node(None, 0)
  }

  lemma GrowStored(nodes: seq<Node>, s: seq<Node>, k: nat, tok: Token, s': seq<Node>, fixed: Node)
    requires Stores(nodes, s, fixed) && |s| < |nodes| && Grows(s, k, |s|, tok, s')
    requires k == 1 ==> fixed.sibling == |s|
    ensures
      var linked := if k == |s| then nodes else nodes[k := nodes[k].(sibling := |s|)];
      Stores(linked[|s| := Node(Some(tok), 0)], s', fixed)
  {
    var linked := if k == |s| then nodes else nodes[k := nodes[k].(sibling := |s|)];
    var after := linked[|s| := Node(Some(tok), 0)];
    forall i | 0 <= i <= |s|
      ensures after[i] == s'[1 := fixed][i]
    {
      assert i < |s| ==> nodes[i] == nodes[..|s|][i];
    }
    assert after[..|s| + 1] == s'[1 := fixed];
  }

  /** What the parser does with one token keeps the array in step. */
  lemma WriteStep(nodes: seq<Node>, x: Tree, tok: Token)
    requires Written(nodes, x) && Neat(x) && Holes(x) > 0 && |Tokens(x)| + 2 < |nodes|
    ensures
      var top, end := Top(Guard(x), 0), |Tokens(x)| + 2;
      && top + 1 <= end
      && (nodes[top + 1].tok.None? <==> top + 1 == end)
      && nodes[end] == Node(None, 0)
      && var linked := if top + 1 == end then nodes else nodes[top + 1 := nodes[top + 1].(sibling := end)];
         Written(linked[end := Node(Some(tok), 0)], Fill(x, tok))
  {
    hide Tokens, Nodes, Top, Fill, Open, Neat, Holes;
    GuardFacts(x, tok);
    var t, top, end := Guard(x), Top(Guard(x), 0), |Tokens(x)| + 2;
    var s, s' := Nodes(t, 0, 0), Nodes(Fill(t, tok), 0, 0);
    FillNodes(t, tok, 0, 0);
    NodesFilled(t, 0, 0);
    GrowStored(nodes, s, top + 1, tok, s', Node(Some(TFn(E)), 2));
    assert top + 1 < end ==> nodes[top + 1] == nodes[..end][top + 1];
  }

  lemma GuardFacts(x: Tree, tok: Token)
    requires Neat(x) && Holes(x) > 0
    ensures Neat(Guard(x)) && Holes(Guard(x)) == Holes(x)
    ensures |Tokens(Guard(x))| == |Tokens(x)| + 2
    ensures Fill(Guard(x), tok) == Guard(Fill(x, tok))
    ensures Nodes(Guard(x), 0, 0)[1].tok == Some(TFn(E))
    ensures Top(Guard(x), 0) == 0 <==> x.Hole?
    ensures x.Hole? ==> |Tokens(x)| == 0
  {
    if !x.Hole? {
      FillOpen(x, tok, 2);
      assert |Tokens(Tip(E))| == 1;
    }
  }

  /** The stack before and after a token, with the guard's application at its bottom. */
  lemma StackStep(x: Tree, tok: Token)
    requires Neat(x) && Holes(x) > 0
    ensures
      var open, end := Open(Guard(x), 0), |Tokens(x)| + 2;
      && open != [] && open[|open| - 1] == Top(Guard(x), 0)
      && Open(Guard(Fill(x, tok)), 0)
         == (if Top(Guard(x), 0) + 1 == end then open else open[..|open| - 1]) + Opened(tok, end)
  {
    hide Tokens, Nodes, Top, Fill, Open, Opened;
    GuardFacts(x, tok);
    FillOpen(Guard(x), tok, 0);
  }

  lemma StackEmpty(x: Tree)
    requires Neat(x)
    ensures Open(Guard(x), 0) == [] <==> Holes(x) == 0
  {
    if !x.Hole? {
      OpenIffHoles(x, 2);
      assert Open(Guard(x), 0) == Open(x, 2);
    }
  }

  /** A full tree is the only expression with its tokens; a tree with holes or left-over tokens is none. */
  lemma Verdict(tokens: seq<Token>, x: Tree, i: nat)
    requires i <= |tokens| && Tokens(x) == tokens[..i]
    requires Missing(tokens, 1) == Missing(tokens[i..], Holes(x))
    ensures i == |tokens| && Holes(x) == 0 ==> Flatten(ToExpr(x)) == tokens
    ensures i == |tokens| && Holes(x) > 0 ==> forall e :: Flatten(e) != tokens
    ensures i < |tokens| && Holes(x) == 0 ==> forall e :: Flatten(e) != tokens
  {
    if i == |tokens| && Holes(x) == 0 {
      NodesLayout(x, 0, 0);
      assert tokens[..i] == tokens;
    } else {
      forall e | Flatten(e) == tokens
        ensures Missing(tokens, 1) == Some(0)
      {
        MissingFlatten(e, [], 0);
        assert Flatten(e) + [] == tokens;
      }
    }
  }

  lemma WrittenEmpty(nodes: seq<Node>)
    requires |nodes| >= 2 && nodes[0] == Node(Some(TApp), 0) && nodes[1] == Node(Some(TFn(E)), 2)
    requires forall i :: 2 <= i < |nodes| ==> nodes[i] == Node(None, 0)
    ensures Written(nodes, Hole)
  {
    assert Nodes(Guard(Hole), 0, 0) == [Node(Some(TApp), 0), Node(Some(TFn(E)), 0)];
  }

  lemma WrittenFull(nodes: seq<Node>, x: Tree)
    requires Neat(x) && Holes(x) == 0 && Written(nodes, x) && |nodes| == |Tokens(x)| + 2
    ensures nodes == Layout(App(Leaf(E), ToExpr(x)), 0, 0)
  {
    var s := Nodes(Guard(x), 0, 0);
    assert Tokens(Guard(x)) == [TApp] + [TFn(E)] + Tokens(x);
    assert s[1] == Node(Some(TFn(E)), 2);
    assert nodes == nodes[..|s|] == s;
    NodesLayout(Guard(x), 0, 0);
  }

  /** Writes token `i` into the child of the stack's top that is still missing. */
  method Place(tok: Token, i: nat, ast: array<Node>, pstack: array<nat>, depth: nat, ghost x: Tree)
      returns (depth': nat)
    requires 0 < depth < pstack.Length && i + 2 < ast.Length
    requires Neat(x) && Holes(x) > 0 && |Tokens(x)| == i
    requires Written(ast[..], x) && pstack[..depth] == Open(Guard(x), 0)
    modifies ast, pstack
    ensures depth' <= depth + 1 && depth' <= pstack.Length
    ensures Written(ast[..], Fill(x, tok)) && pstack[..depth'] == Open(Guard(Fill(x, tok)), 0)
  {
    hide Written, Nodes, Open, Top, Fill, Tokens, Neat, Holes;
    WriteStep(ast[..], x, tok);
    StackStep(x, tok);
    assert pstack[..depth][..depth - 1] == pstack[..depth - 1];
    var top := pstack[depth - 1];
    var child: nat;
    depth' := depth;
    if ast[top + 1].tok.None? {
      child := top + 1;
    } else {
      ast[top + 1] := ast[top + 1].(sibling := i + 2);
      child := ast[top + 1].sibling;
      depth' := depth - 1;
    }
    ast[child] := ast[child].(tok := Some(tok));
    if tok.TApp? {
      pstack[depth'] := child;
      depth' := depth' + 1;
    }
  }

  /** `u6a_parse`: accepts exactly the token lists that are one expression, and lays out that
      expression under the guard `e`. */
  method Parse(tokens: seq<Token>) returns (ok: bool, ast: array<Node>, ghost e: Expr)
    ensures ok ==> tokens == Flatten(e) && ast[..] == Layout(App(Leaf(E), e), 0, 0)
    ensures !ok ==> forall x :: Flatten(x) != tokens
    ensures fresh(ast)
  {
    hide Written, Nodes, Open, Top, Fill, Missing, Tokens, Neat, Holes, Layout, Flatten;
    ast := new Node[|tokens| + 2](i =>
      if i == 0 then Node(Some(TApp), 0) else if i == 1 then Node(Some(TFn(E)), 2) else Node(None, 0));
    WrittenEmpty(ast[..]);
    e := Leaf(E);
    var pstack := new nat[|tokens| + 1](_ => 0);
    var depth: nat, i: nat := 1, 0;
    ghost var x := Hole;
    InitialTree();
    assert tokens[0..] == tokens && pstack[..1] == [0];
    while i < |tokens|
      invariant i <= |tokens| && depth <= i + 1 && ast.Length == |tokens| + 2 && pstack.Length == |tokens| + 1
      invariant Neat(x) && Tokens(x) == tokens[..i] && Written(ast[..], x)
      invariant pstack[..depth] == Open(Guard(x), 0)
      invariant Missing(tokens, 1) == Missing(tokens[i..], Holes(x))
      decreases |tokens| - i
    {
      StackEmpty(x);
      assert depth == 0 <==> pstack[..depth] == [];
      if depth == 0 {
        Verdict(tokens, x, i);
        return false, ast, e;
      }
      FillTokens(x, tokens[i], 0);
      MissingStep(tokens[i..], Holes(x));
      assert tokens[i..][1..] == tokens[i + 1..] && tokens[..i] + [tokens[i]] == tokens[..i + 1];
      depth := Place(tokens[i], i, ast, pstack, depth, x);
      x := Fill(x, tokens[i]);
      i := i + 1;
    }
    StackEmpty(x);
    Verdict(tokens, x, i);
    assert depth == 0 <==> pstack[..depth] == [];
    ok := depth == 0;
    if ok {
      e := ToExpr(x);
      WrittenFull(ast[..], x);
    }
  }

  lemma InitialTree()
    ensures Open(Guard(Hole), 0) == [0] && Neat(Hole) && Tokens(Hole) == [] && Holes(Hole) == 1
  {
  }

  lemma MissingStep(tokens: seq<Token>, k: nat)
    requires tokens != [] && k > 0
    ensures Missing(tokens, k) == Missing(tokens[1..], if tokens[0].TApp? then k + 1 else k - 1)
  {
  }
}
