/** The code of an expression, by recursion on the expression: what src/codegen.c must emit. */
module Compile {
  import opened Syntax
  import opened Seqs
  import Machine

  type Ins = Machine.Ins

  /** Shortest run of `.x` worth turning into a string (src/codegen.c:32). */
  const MIN_LEN: nat := 4

  /** `.a`.b ... `.z p`: printing functions applied one after another to a primitive. */
  predicate Chain(e: Expr) {
    e.App? && e.l.Leaf? && e.l.p.Out? && (e.r.Leaf? || Chain(e.r))
  }

  /** The characters of a chain, in the order they are printed: innermost first. */
  function ChainOut(e: Expr): seq<byte>
    requires Chain(e)
  {
    (if e.r.Leaf? then [] else ChainOut(e.r)) + [e.l.p.ch]
  }

  function ChainEnd(e: Expr): Prim
    requires Chain(e)
  {
    if e.r.Leaf? then e.r.p else ChainEnd(e.r)
  }

  predicate Folds(opt: bool, e: Expr) {
    opt && Chain(e) && |ChainOut(e)| >= MIN_LEN
  }

  /** An application whose argument may have to be delayed takes two instructions. */
  predicate Guarded(e: Expr)
    requires e.App?
  {
    e.r.App? && (e.l.App? || e.l.p == D)
  }

  function Gap(e: Expr): nat
    requires e.App?
  {
    if Guarded(e) then 1 else 0
  }

  /** Between function and argument: skip the argument's code, up to `next`, if it is delayed. */
  function Skipper(e: Expr, next: nat): Ins
    requires e.App? && Guarded(e)
  {
    if e.l.App? then Machine.Sa(next) else Machine.Del(next)
  }

  /** The instruction that applies function to argument. */
  function Finisher(e: Expr): Ins
    requires e.App?
  {
    if Guarded(e) then Machine.La
    else Machine.Apply(if e.l.App? then None else Some(e.l.p), if e.r.App? then None else Some(e.r.p))
  }

  function Len(opt: bool, e: Expr): nat {
    if e.Leaf? then 0
    else if Folds(opt, e) then 2
    else Len(opt, e.l) + Gap(e) + Len(opt, e.r) + 1
  }

  function Data(opt: bool, e: Expr): seq<byte> {
    if e.Leaf? then []
    else if Folds(opt, e) then ChainOut(e) + [0]
    else Data(opt, e.l) + Data(opt, e.r)
  }

  /** Code for `e` placed at program index `at`, its strings at offset `ro`. */
  function Text(opt: bool, e: Expr, at: nat, ro: nat): (text: seq<Ins>)
    ensures |text| == Len(opt, e)
  {
    if e.Leaf? then []
    else if Folds(opt, e) then [Machine.Lc(ro), Machine.Apply(None, Some(ChainEnd(e)))]
    else
      var l := Text(opt, e.l, at, ro);
      var r := Text(opt, e.r, at + |l| + Gap(e), ro + |Data(opt, e.l)|);
      l + (if Guarded(e) then [Skipper(e, at + Len(opt, e))] else []) + r + [Finisher(e)]
  }

  /** The code of `e` stands in the image's text from index `p` on, its strings in the rodata. */
  ghost predicate Placed(im: Machine.Image, opt: bool, e: Expr, p: nat)
    requires e.App?
  {
    var q := p + Len(opt, e);
    && Machine.SUBST_LEN <= p && q < |im.text|
    && if Folds(opt, e) then
         && im.text[p].Lc?
         && Machine.CString(im.rodata, im.text[p].off) == ChainOut(e)
         && im.text[p + 1] == Machine.Apply(None, Some(ChainEnd(e)))
       else
         var m := p + Len(opt, e.l);
         && (e.l.App? ==> Placed(im, opt, e.l, p))
         && (Guarded(e) ==> im.text[m] == Skipper(e, q - Machine.SUBST_LEN))
         && (e.r.App? ==> Placed(im, opt, e.r, m + Gap(e)))
         && im.text[q - 1] == Finisher(e)
  }

  /** No `.x` with a zero byte: the lexer admits none. */
  predicate NoNul(e: Expr) {
    if e.Leaf? then e.p.Out? ==> e.p.ch != 0 else NoNul(e.l) && NoNul(e.r)
  }

  lemma {:induction false} ChainHasNoNul(e: Expr)
    requires Chain(e) && NoNul(e)
    ensures 0 !in ChainOut(e)
    decreases e
  {
    if e.r.App? {
      ChainHasNoNul(e.r);
    }
  }

  /** Reading on from an offset gives the string stored there, up to its terminator. */
  lemma {:induction false} CStringReads(data: seq<byte>, off: nat, s: seq<byte>)
    requires Has(data, off, s + [0]) && 0 !in s
    ensures Machine.CString(data, off) == s
    decreases s
  {
    var t := s + [0];
    assert data[off] == data[off..off + |t|][0] == t[0];
    if s != [] {
      assert t[1..] == s[1..] + [0];
      assert data[off + 1..off + 1 + |t| - 1] == data[off..off + |t|][1..];
      CStringReads(data, off + 1, s[1..]);
    }
  }

  lemma TextParts(opt: bool, e: Expr, at: nat, ro: nat)
    requires e.App? && !Folds(opt, e)
    ensures Len(opt, e) == Len(opt, e.l) + Gap(e) + Len(opt, e.r) + 1
    ensures Text(opt, e, at, ro)
         == Text(opt, e.l, at, ro)
          + (if Guarded(e) then [Skipper(e, at + Len(opt, e))] else [])
          + Text(opt, e.r, at + Len(opt, e.l) + Gap(e), ro + |Data(opt, e.l)|)
          + [Finisher(e)]
  {
  }

  /** The parts of the code of an unfolded application, each in its place. */
  lemma TextSplit(text: seq<Ins>, p: nat, opt: bool, e: Expr, at: nat, ro: nat)
    requires e.App? && !Folds(opt, e)
    requires Has(text, p, Text(opt, e, at, ro))
    ensures Has(text, p, Text(opt, e.l, at, ro))
    ensures Guarded(e) ==> Has(text, p + Len(opt, e.l), [Skipper(e, at + Len(opt, e))])
    ensures Has(text, p + Len(opt, e.l) + Gap(e), Text(opt, e.r, at + Len(opt, e.l) + Gap(e), ro + |Data(opt, e.l)|))
    ensures Has(text, p + Len(opt, e) - 1, [Finisher(e)])
  {
    hide Has, Text, Len, Data;
    TextParts(opt, e, at, ro);
    var l := Text(opt, e.l, at, ro);
    var r := Text(opt, e.r, at + |l| + Gap(e), ro + |Data(opt, e.l)|);
    var skip := if Guarded(e) then [Skipper(e, at + Len(opt, e))] else [];
    HasFour(text, p, l, skip, r, [Finisher(e)]);
  }

  lemma FoldPlaced(im: Machine.Image, opt: bool, e: Expr, at: nat, ro: nat)
    requires Folds(opt, e) && NoNul(e)
    requires at + Machine.SUBST_LEN + 2 < |im.text|
    requires Has(im.text, at + Machine.SUBST_LEN, Text(opt, e, at, ro))
    requires Has(im.rodata, ro, Data(opt, e))
    ensures Placed(im, opt, e, at + Machine.SUBST_LEN)
  {
    var p := at + Machine.SUBST_LEN;
    var code := Text(opt, e, at, ro);
    assert code == [code[0]] + [code[1]];
    HasSplit(im.text, p, [code[0]], [code[1]]);
    LoneHas(im.text, p, code[0]);
    LoneHas(im.text, p + 1, code[1]);
    ChainHasNoNul(e);
    CStringReads(im.rodata, ro, ChainOut(e));
  }

  lemma DataSplit(data: seq<byte>, ro: nat, opt: bool, e: Expr)
    requires e.App? && !Folds(opt, e) && Has(data, ro, Data(opt, e))
    ensures Has(data, ro, Data(opt, e.l)) && Has(data, ro + |Data(opt, e.l)|, Data(opt, e.r))
  {
    DataJoin(opt, e);
    hide Data, Has;
    HasSplit(data, ro, Data(opt, e.l), Data(opt, e.r));
  }

  lemma DataJoin(opt: bool, e: Expr)
    requires e.App? && !Folds(opt, e)
    ensures Data(opt, e) == Data(opt, e.l) + Data(opt, e.r)
  {
  }

  lemma PartsPlaced(im: Machine.Image, opt: bool, e: Expr, p: nat)
    requires e.App? && !Folds(opt, e) && Machine.SUBST_LEN <= p && p + Len(opt, e) < |im.text|
    requires e.l.App? ==> Placed(im, opt, e.l, p)
    requires Guarded(e) ==> im.text[p + Len(opt, e.l)] == Skipper(e, p + Len(opt, e) - Machine.SUBST_LEN)
    requires e.r.App? ==> Placed(im, opt, e.r, p + Len(opt, e.l) + Gap(e))
    requires im.text[p + Len(opt, e) - 1] == Finisher(e)
    ensures Placed(im, opt, e, p)
  {
  }

  /** Wherever the text and the strings of `e` are loaded, its code is in place there. */
  lemma {:induction false} TextPlaced(im: Machine.Image, opt: bool, e: Expr, at: nat, ro: nat)
    requires e.App? && NoNul(e)
    requires at + Machine.SUBST_LEN + Len(opt, e) < |im.text|
    requires Has(im.text, at + Machine.SUBST_LEN, Text(opt, e, at, ro))
    requires Has(im.rodata, ro, Data(opt, e))
    ensures Placed(im, opt, e, at + Machine.SUBST_LEN)
    decreases e
  {
    hide Has, Text, Placed, Data;
    var p := at + Machine.SUBST_LEN;
    if Folds(opt, e) {
      FoldPlaced(im, opt, e, at, ro);
    } else {
      assert Len(opt, e) == Len(opt, e.l) + Gap(e) + Len(opt, e.r) + 1;
      TextSplit(im.text, p, opt, e, at, ro);
      DataSplit(im.rodata, ro, opt, e);
      hide Len;
      LoneHas(im.text, p + Len(opt, e) - 1, Finisher(e));
      if Guarded(e) {
        LoneHas(im.text, p + Len(opt, e.l), Skipper(e, at + Len(opt, e)));
      }
      if e.l.App? {
        TextPlaced(im, opt, e.l, at, ro);
      }
      if e.r.App? {
        TextPlaced(im, opt, e.r, at + Len(opt, e.l) + Gap(e), ro + |Data(opt, e.l)|);
      }
      PartsPlaced(im, opt, e, p);
    }
  }

  /** `.a`.b ... p for the characters a, b, ... */
  function Chained(xs: seq<byte>, p: Prim): Expr {
    if xs == [] then Leaf(p) else App(Leaf(Out(xs[0])), Chained(xs[1..], p))
  }

  lemma {:induction false} ChainedOut(xs: seq<byte>, p: Prim)
    requires xs != []
    ensures Chain(Chained(xs, p)) && ChainEnd(Chained(xs, p)) == p
    ensures |ChainOut(Chained(xs, p))| == |xs|
    ensures forall i :: 0 <= i < |xs| ==> ChainOut(Chained(xs, p))[i] == xs[|xs| - 1 - i]
    decreases |xs|
  {
    if |xs| > 1 {
      ChainedOut(xs[1..], p);
    }
  }

  /** From four characters on, a chain that may be folded is two instructions and a string of its
      characters, last one first, with a zero behind. */
  lemma FoldedCode(xs: seq<byte>, p: Prim, at: nat, ro: nat)
    requires |xs| >= 4
    ensures Text(true, Chained(xs, p), at, ro) == [Machine.Lc(ro), Machine.Apply(None, Some(p))]
    ensures
      var data := Data(true, Chained(xs, p));
      && |data| == |xs| + 1 && data[|xs|] == 0
      && forall i :: 0 <= i < |xs| ==> data[i] == xs[|xs| - 1 - i]
  {
    ChainedOut(xs, p);
  }

  /** One more character in front of code that is not folded is one more instruction behind it. */
  lemma LinkCode(opt: bool, x: byte, e: Expr, at: nat, ro: nat)
    requires !Folds(opt, App(Leaf(Out(x)), e)) && (e.App? ==> e.l.Leaf? && e.l.p.Out?)
    ensures Text(opt, App(Leaf(Out(x)), e), at, ro)
         == Text(opt, e, at, ro) + [Machine.Apply(Some(Out(x)), if e.App? then None else Some(e.p))]
    ensures Data(opt, App(Leaf(Out(x)), e)) == Data(opt, e)
  {
    var link := App(Leaf(Out(x)), e);
    TextParts(opt, link, at, ro);
    DataJoin(opt, link);
    assert Text(opt, link.l, at, ro) == [] && Data(opt, link.l) == [] && Len(opt, link.l) == Gap(link) == 0;
  }

  /** Any other chain has an instruction for each character, and no string. */
  lemma {:induction false} PlainCode(opt: bool, xs: seq<byte>, p: Prim, at: nat, ro: nat)
    requires 1 <= |xs| && (opt ==> |xs| <= 3)
    ensures
      var text := Text(opt, Chained(xs, p), at, ro);
      && |text| == |xs| && text[0] == Machine.Apply(Some(Out(xs[|xs| - 1])), Some(p))
      && forall i :: 1 <= i < |xs| ==> text[i] == Machine.Apply(Some(Out(xs[|xs| - 1 - i])), None)
    ensures Data(opt, Chained(xs, p)) == []
    decreases |xs|
  {
    ChainedOut(xs, p);
    assert Text(opt, Leaf(p), at, ro) == [] && Data(opt, Leaf(p)) == [];
    hide Text, Data, Len;
    LinkCode(opt, xs[0], Chained(xs[1..], p), at, ro);
    if |xs| > 1 {
      PlainCode(opt, xs[1..], p, at, ro);
    }
  }
}
