/** The one-pass code generator (src/codegen.c:83-193): one walk over the node array with a stack
    of pending instructions, backpatched skip offsets, and chains of `.x` folded into strings. */
module Codegen {
  import opened Syntax
  import opened Seqs
  import opened Ast
  import opened Compile
  import Machine

  /** An instruction that waits for the code of a subexpression; `offset` is where the instruction
      to backpatch stands, for LA. */
  datatype Pending = Pending(ins: Ins, offset: nat)

  /** What the generator has produced and what it still owes; the stack's top is its last element. */
  datatype Gen = Gen(text: seq<Ins>, data: seq<byte>, stack: seq<Pending>) {
    function Push(p: Pending): Gen {
      this.(stack := stack + [p])
    }

    function Emit(ins: Ins): Gen {
      this.(text := text + [ins])
    }
  }

  /** Subexpressions whose nodes have not been visited yet. */
  datatype Todo = Nil | Cons(head: Expr, tail: Todo)

  function Patch(ins: Ins, off: nat): Ins {
    match ins
    case Sa(_) => Machine.Sa(off)
    case Del(_) => Machine.Del(off)
    case _ => ins
  }

  /** Emit one pending instruction; LA also fills in the offset that leads behind it. */
  function Close(g: Gen, top: Pending): Gen {
    var text := if top.ins.La? && top.offset < |g.text|
                then g.text[top.offset := Patch(g.text[top.offset], |g.text| + 1)] else g.text;
    g.(text := text + [top.ins])
  }

  /** Emit pending instructions until a function-argument boundary (SA) has been crossed. */
  ghost function Unwind(g: Gen): Gen
    decreases |g.stack|
  {
    if g.stack == [] then g
    else
      var top, rest := g.stack[|g.stack| - 1], g.stack[..|g.stack| - 1];
      if top.ins.Sa? then
        Gen(g.text + [Machine.Sa(0)], g.data, rest + [Pending(Machine.La, |g.text|)])
      else Unwind(Close(g.(stack := rest), top))
  }

  predicate PrintPending(p: Pending) {
    p.ins.Apply? && p.ins.first.Some? && p.ins.first.value.Out? && p.ins.second.None?
  }

  ghost predicate Extends(opt: bool, e: Expr, stack: seq<Pending>) {
    opt && Chain(e) && stack != [] && PrintPending(stack[|stack| - 1])
  }

  /** The whole chain that `e` is the inner end of, counting the pending `.x` above it. */
  ghost function Absorb(opt: bool, e: Expr, stack: seq<Pending>): (Expr, seq<Pending>)
    decreases |stack|
  {
    if Extends(opt, e, stack) then
      Absorb(opt, App(Leaf(stack[|stack| - 1].ins.first.value), e), stack[..|stack| - 1])
    else (e, stack)
  }

  ghost function Produce(opt: bool, e: Expr, g: Gen): Gen {
    Gen(g.text + Text(opt, e, |g.text|, |g.data|), g.data + Data(opt, e), g.stack)
  }

  /** Where the walk must end up, said with the recursive compiler. */
  ghost function Finish(opt: bool, todo: Todo, g: Gen): Gen {
    match todo
    case Nil => g
    case Cons(Leaf(_), tail) => Finish(opt, tail, g)
    case Cons(e, tail) =>
      var (whole, rest) := Absorb(opt, e, g.stack);
      Finish(opt, tail, Unwind(Produce(opt, whole, g.(stack := rest))))
  }

  /** The text with its skip offset still open, and what backpatching makes of it. */
  lemma PatchStep(opt: bool, e: Expr, g: Gen, before: seq<Ins>)
    requires e.App? && Guarded(e)
    requires before == g.text + Text(opt, e.l, |g.text|, |g.data|) + [Patch(Skipper(e, 0), 0)]
    ensures
      var at := |g.text| + Len(opt, e.l);
      var text := before + Text(opt, e.r, |before|, |g.data + Data(opt, e.l)|);
      && at < |text|
      && text[at := Patch(text[at], |text| + 1)] + [Machine.La] == g.text + Text(opt, e, |g.text|, |g.data|)
  {
    hide Text, Len, Data;
    TextParts(opt, e, |g.text|, |g.data|);
    var at := |g.text| + Len(opt, e.l);
    var l := Text(opt, e.l, |g.text|, |g.data|);
    var r := Text(opt, e.r, |before|, |g.data + Data(opt, e.l)|);
    var text := before + r;
    var next := |g.text| + Len(opt, e);
    assert text[at] == before[at];
    assert Patch(text[at], next) == Skipper(e, next);
    PatchParts(g.text, l, text[at], Skipper(e, next), r, Machine.La);
  }

  /** What visiting the node of an application does, unless both children are primitives. */
  ghost function Enter(e: Expr, g: Gen): Gen
    requires e.App? && (e.l.App? || e.r.App?)
  {
    if !Guarded(e) then g.Push(Pending(Finisher(e), 0))
    else if e.l.App? then g.Push(Pending(Machine.Sa(0), 0))
    else g.Emit(Machine.Del(0)).Push(Pending(Machine.La, |g.text|))
  }

  lemma LeafEmpty(opt: bool, e: Expr, at: nat, ro: nat)
    ensures e.Leaf? ==> Text(opt, e, at, ro) == [] && Data(opt, e) == [] && Len(opt, e) == 0
  {
  }

  lemma DataParts(opt: bool, e: Expr)
    requires e.App? && !Folds(opt, e)
    ensures Data(opt, e) == Data(opt, e.l) + Data(opt, e.r)
  {
  }

  /** Where one child is a primitive, the code is that of the other child and one instruction. */
  lemma OneChild(opt: bool, e: Expr, at: nat, ro: nat)
    requires e.App? && !Folds(opt, e) && !Guarded(e) && (e.l.App? || e.r.App?)
    ensures
      var c := if e.l.App? then e.l else e.r;
      Text(opt, e, at, ro) == Text(opt, c, at, ro) + [Finisher(e)] && Data(opt, e) == Data(opt, c)
  {
    hide Text, Len, Data;
    TextParts(opt, e, at, ro);
    DataParts(opt, e);
    LeafEmpty(opt, e.l, at, ro);
    LeafEmpty(opt, e.r, at + Len(opt, e.l), ro + |Data(opt, e.l)|);
  }

  /** One child holds code: the pending application follows it. */
  lemma ApplyStep(opt: bool, e: Expr, g: Gen, off: nat)
    requires e.App? && !Folds(opt, e) && !Guarded(e) && (e.l.App? || e.r.App?)
    ensures Unwind(Produce(opt, if e.l.App? then e.l else e.r, g.Push(Pending(Finisher(e), off))))
         == Unwind(Produce(opt, e, g))
  {
    hide Text, Len, Data;
    OneChild(opt, e, |g.text|, |g.data|);
    PushPop(g.stack, Pending(Finisher(e), off));
    var code := Text(opt, if e.l.App? then e.l else e.r, |g.text|, |g.data|);
    assert g.text + code + [Finisher(e)] == g.text + (code + [Finisher(e)]);
  }

  /** `d` applied to code: DEL now, LA after the code, then the offset of DEL. */
  lemma DelayStep(opt: bool, e: Expr, g: Gen)
    requires e.App? && e.l == Leaf(D) && e.r.App?
    ensures Unwind(Produce(opt, e.r, Enter(e, g))) == Unwind(Produce(opt, e, g))
  {
    hide Text, Len, Data;
    LeafEmpty(opt, e.l, |g.text|, |g.data|);
    DataParts(opt, e);
    var h := Produce(opt, e.r, Enter(e, g));
    PushPop(g.stack, Pending(Machine.La, |g.text|));
    assert g.data + Data(opt, e.l) == g.data;
    PatchStep(opt, e, g, g.text + [Machine.Del(0)]);
    assert h.data == g.data + Data(opt, e);
  }

  /** Function and argument are both code: SA between them, LA behind, then the offset of SA. */
  lemma SkipStep(opt: bool, e: Expr, g: Gen)
    requires e.App? && e.l.App? && e.r.App?
    ensures
      var h := Unwind(Produce(opt, e.l, Enter(e, g)));
      && h.stack == g.stack + [Pending(Machine.La, |g.text| + Len(opt, e.l))]
      && Unwind(Produce(opt, e.r, h)) == Unwind(Produce(opt, e, g))
  {
    hide Text, Len, Data;
    DataParts(opt, e);
    PushPop(g.stack, Pending(Machine.Sa(0), 0));
    var h := Unwind(Produce(opt, e.l, Enter(e, g)));
    PushPop(g.stack, Pending(Machine.La, |g.text| + Len(opt, e.l)));
    PatchStep(opt, e, g, h.text);
    assert h.data + Data(opt, e.r) == g.data + Data(opt, e);
  }

  /** Visiting an application's node and owing its children is the same as owing it. */
  lemma EnterStep(opt: bool, e: Expr, tail: Todo, g: Gen)
    requires e.App? && (e.l.App? || e.r.App?)
    ensures Finish(opt, Cons(e, tail), g) == Finish(opt, Cons(e.l, Cons(e.r, tail)), Enter(e, g))
  {
    hide Text, Len, Data, Unwind, Produce;
    var h := Enter(e, g);
    if e.l.App? && e.r.App? {
      SkipStep(opt, e, g);
    } else if e.l == Leaf(D) {
      DelayStep(opt, e, g);
    } else {
      PushPop(g.stack, Pending(Finisher(e), 0));
      if !(opt && Chain(e)) {
        ApplyStep(opt, e, g, 0);
      }
    }
  }

  lemma AbsorbTop(e: Expr, rest: seq<Pending>, top: Pending)
    requires Chain(e)
    ensures Absorb(true, e, rest + [top])
         == if PrintPending(top) then Absorb(true, App(Leaf(top.ins.first.value), e), rest) else (e, rest + [top])
  {
    PushPop(rest, top);
  }

  lemma AbsorbNone(e: Expr)
    ensures Absorb(true, e, []) == (e, [])
  {
  }

  /** Absorbing only lengthens a chain; it keeps its end. */
  lemma {:induction false} AbsorbKeeps(opt: bool, e: Expr, stack: seq<Pending>)
    requires Chain(e)
    ensures
      var whole := Absorb(opt, e, stack).0;
      Chain(whole) && |ChainOut(whole)| >= |ChainOut(e)| && ChainEnd(whole) == ChainEnd(e)
    decreases |stack|
  {
    if Extends(opt, e, stack) {
      AbsorbKeeps(opt, App(Leaf(stack[|stack| - 1].ins.first.value), e), stack[..|stack| - 1]);
    }
  }

  /** Giving back pending `.x` that were counted towards a string too short to fold. */
  lemma {:induction false} AbsorbShort(opt: bool, e: Expr, g: Gen)
    requires Chain(e) && !Folds(opt, Absorb(opt, e, g.stack).0)
    ensures
      var (whole, rest) := Absorb(opt, e, g.stack);
      Unwind(Produce(opt, e, g)) == Unwind(Produce(opt, whole, g.(stack := rest)))
    decreases |g.stack|
  {
    hide Text, Len, Data, Unwind, Produce;
    if Extends(opt, e, g.stack) {
      var n := |g.stack| - 1;
      var top, rest := g.stack[n], g.stack[..n];
      var outer := App(Leaf(top.ins.first.value), e);
      AbsorbShort(opt, outer, g.(stack := rest));
      AbsorbKeeps(opt, outer, rest);
      ApplyStep(opt, outer, g.(stack := rest), top.offset);
      assert top == Pending(Finisher(outer), top.offset);
      assert g.(stack := rest).Push(top) == g;
    }
  }

  /** Two primitives whose application stays an instruction. */
  lemma PairStep(opt: bool, e: Expr, tail: Todo, g: Gen)
    requires e.App? && e.l.Leaf? && e.r.Leaf? && !Folds(opt, Absorb(opt, e, g.stack).0)
    ensures Finish(opt, Cons(e, tail), g) == Finish(opt, Cons(e.l, Cons(e.r, tail)), Unwind(g.Emit(Finisher(e))))
  {
    hide Unwind, Text, Len, Data;
    if Chain(e) {
      AbsorbKeeps(opt, e, g.stack);
      AbsorbShort(opt, e, g);
    }
    TextParts(opt, e, |g.text|, |g.data|);
    DataParts(opt, e);
    LeafEmpty(opt, e.l, |g.text|, |g.data|);
    LeafEmpty(opt, e.r, |g.text|, |g.data|);
    assert Produce(opt, e, g) == g.Emit(Finisher(e));
  }

  /** Two primitives at the inner end of a chain that becomes a string. */
  lemma FoldStep(opt: bool, e: Expr, tail: Todo, g: Gen)
    requires e.App? && e.l.Leaf? && e.r.Leaf?
    ensures
      var (whole, rest) := Absorb(opt, e, g.stack);
      Finish(opt, Cons(e, tail), g)
      == Finish(opt, Cons(e.l, Cons(e.r, tail)), Unwind(Produce(opt, whole, g.(stack := rest))))
  {
    hide Unwind, Produce;
  }

  /** Instructions that the pending stack will still come to. */
  function Owed(stack: seq<Pending>): nat {
    if stack == [] then 0
    else Owed(stack[..|stack| - 1]) + if stack[|stack| - 1].ins.Sa? then 2 else 1
  }

  /** Applications not visited yet. */
  function AppsLeft(todo: Todo): nat {
    match todo
    case Nil => 0
    case Cons(e, tail) => Apps(e) + AppsLeft(tail)
  }

  /** The subexpressions in `todo` lie in the array one behind the other, from `i` to its end. */
  ghost predicate Laid(nodes: seq<Node>, i: nat, todo: Todo)
    decreases todo
  {
    match todo
    case Nil => i == |nodes|
    case Cons(e, tail) => At(nodes, i, e) && Laid(nodes, i + Size(e), tail)
  }

  /** Every pending LA knows an instruction to patch. */
  predicate Aimed(stack: seq<Pending>, textLen: nat) {
    forall i :: 0 <= i < |stack| && stack[i].ins.La? ==> stack[i].offset < textLen
  }

  lemma PushFacts(stack: seq<Pending>, p: Pending, textLen: nat)
    ensures Owed(stack + [p]) == Owed(stack) + if p.ins.Sa? then 2 else 1
    ensures Aimed(stack + [p], textLen) <==> Aimed(stack, textLen) && (p.ins.La? ==> p.offset < textLen)
  {
    PushPop(stack, p);
    assert forall i :: 0 <= i < |stack| ==> (stack + [p])[i] == stack[i];
    assert (stack + [p])[|stack|] == p;
  }

  lemma AimedGrows(stack: seq<Pending>, m: nat, n: nat)
    requires m <= n && Aimed(stack, m)
    ensures Aimed(stack, n)
  {
  }

  /** Unwinding, with the top of the stack named. */
  lemma UnwindTop(g: Gen, top: Pending)
    ensures Unwind(g.Push(top))
         == if top.ins.Sa? then g.Emit(Machine.Sa(0)).Push(Pending(Machine.La, |g.text|))
            else Unwind(Close(g, top))
  {
    PushPop(g.stack, top);
  }

  /** The buffers of `u6a_codegen`. `depth` counts the pending instructions (stack_top + 1). */
  class Generator {
    const text: array<Ins>
    const rodata: array<byte>
    const stack: array<Pending>
    var textLen: nat
    var rodataLen: nat
    var depth: nat

    constructor (size: nat)
      ensures Valid() && fresh(text) && fresh(rodata) && fresh(stack)
      ensures text.Length == rodata.Length == stack.Length == size
      ensures Contents() == Gen([], [], [])
      ensures forall apps: nat :: 2 * apps <= size ==> Room(apps)
    {
      text := new Ins[size](_ => Machine.La);
      rodata := new byte[size](_ => 0);
      stack := new Pending[size](_ => Pending(Machine.La, 0));
      textLen, rodataLen, depth := 0, 0, 0;
    }

    ghost predicate Valid()
      reads this
    {
      textLen <= text.Length && rodataLen <= rodata.Length && depth <= stack.Length
    }

    ghost function Contents(): Gen
      requires Valid()
      reads this, text, rodata, stack
    {
      Gen(text[..textLen], rodata[..rodataLen], stack[..depth])
    }

    /** The buffers suffice for what is pending and `apps` applications to come. */
    ghost predicate Room(apps: nat)
      requires Valid()
      reads this, stack
    {
      && Aimed(stack[..depth], textLen)
      && textLen + Owed(stack[..depth]) + 2 * apps <= text.Length
      && rodataLen + 2 * (depth + apps) <= rodata.Length
      && depth + apps <= stack.Length
    }

    method Push(p: Pending)
      requires Valid() && depth < stack.Length
      modifies this`depth, stack
      ensures Valid() && depth == old(depth) + 1 && Contents() == old(Contents()).Push(p)
    {
      stack[depth] := p;
      depth := depth + 1;
    }

    method Emit(ins: Ins)
      requires Valid() && textLen < text.Length
      modifies this`textLen, text
      ensures Valid() && textLen == old(textLen) + 1 && Contents() == old(Contents()).Emit(ins)
    {
      text[textLen] := ins;
      textLen := textLen + 1;
    }

    /** Emits an instruction taken off the stack, patching the one an LA belongs to. */
    method EmitPending(top: Pending)
      requires Valid() && textLen < text.Length && (top.ins.La? ==> top.offset < textLen)
      modifies this`textLen, text
      ensures Valid() && textLen == old(textLen) + 1 && Contents() == Close(old(Contents()), top)
    {
      text[textLen] := top.ins;
      textLen := textLen + 1;
      if top.ins.La? {
        text[top.offset] := Patch(text[top.offset], textLen);
      }
    }

    method Pop() returns (top: Pending)
      requires Valid() && depth > 0
      modifies this`depth
      ensures Valid() && depth == old(depth) - 1 && old(Contents()) == Contents().Push(top)
    {
      depth := depth - 1;
      top := stack[depth];
    }

    /** Takes one pending instruction off the stack and emits it; `crossed` says it was an SA. */
    method FlushOne() returns (crossed: bool)
      requires Valid() && depth > 0
      requires Aimed(stack[..depth], textLen) && textLen + Owed(stack[..depth]) <= text.Length
      modifies this`textLen, this`depth, text, stack
      ensures Valid() && depth <= old(depth) && (!crossed ==> depth < old(depth))
      ensures Unwind(old(Contents())) == if crossed then Contents() else Unwind(Contents())
      ensures Aimed(stack[..depth], textLen)
      ensures textLen + Owed(stack[..depth]) <= old(textLen + Owed(stack[..depth]))
    {
      hide Unwind, Close, Owed, Aimed;
      var top := Pop();
      ghost var g := Contents();
      UnwindTop(g, top);
      PushFacts(g.stack, top, textLen);
      crossed := top.ins.Sa?;
      AimedGrows(g.stack, textLen, textLen + 1);
      if crossed {
        Emit(Machine.Sa(0));
        Push(Pending(Machine.La, textLen - 1));
        PushFacts(g.stack, Pending(Machine.La, textLen - 1), textLen);
      } else {
        EmitPending(top);
        assert Contents().stack == g.stack;
      }
    }

    /** Pops pending instructions into the text, up to and including the first SA. */
    method Flush()
      requires Valid() && Aimed(stack[..depth], textLen) && textLen + Owed(stack[..depth]) <= text.Length
      modifies this`textLen, this`depth, text, stack
      ensures Valid() && Contents() == Unwind(old(Contents()))
      ensures depth <= old(depth) && textLen + Owed(stack[..depth]) <= old(textLen + Owed(stack[..depth]))
      ensures Aimed(stack[..depth], textLen)
    {
      while depth > 0
        invariant Valid() && depth <= old(depth) && Aimed(stack[..depth], textLen)
        invariant Unwind(Contents()) == Unwind(old(Contents()))
        invariant textLen + Owed(stack[..depth]) <= old(textLen + Owed(stack[..depth]))
        decreases depth
      {
        var crossed := FlushOne();
        if crossed {
          return;
        }
      }
    }

    /** Writes the characters of the chain that ends in `.x end`, taking its outer `.x` off the stack. */
    method Collect(ch: byte, ghost end: Prim) returns (ghost whole: Expr)
      requires Valid() && Room(1)
      modifies this`rodataLen, this`depth, rodata
      ensures Valid() && Aimed(stack[..depth], textLen) && Owed(stack[..depth]) <= old(Owed(stack[..depth]))
      ensures depth <= old(depth) && rodataLen == old(rodataLen) + 1 + old(depth) - depth
      ensures (whole, stack[..depth]) == Absorb(true, App(Leaf(Out(ch)), Leaf(end)), old(stack[..depth]))
      ensures Chain(whole) && ChainEnd(whole) == end
      ensures rodata[..rodataLen] == old(rodata[..rodataLen]) + ChainOut(whole)
    {
      hide Absorb, Owed, Aimed;
      rodata[rodataLen] := ch;
      rodataLen := rodataLen + 1;
      whole := App(Leaf(Out(ch)), Leaf(end));
      while depth > 0
        invariant Valid() && depth <= old(depth) && rodataLen == old(rodataLen) + 1 + old(depth) - depth
        invariant Chain(whole) && ChainEnd(whole) == end
        invariant rodata[..rodataLen] == old(rodata[..rodataLen]) + ChainOut(whole)
        invariant Absorb(true, whole, stack[..depth])
               == Absorb(true, App(Leaf(Out(ch)), Leaf(end)), old(stack[..depth]))
        invariant Aimed(stack[..depth], textLen) && Owed(stack[..depth]) <= old(Owed(stack[..depth]))
        decreases depth
      {
        var top := Pop();
        PushFacts(stack[..depth], top, textLen);
        AbsorbTop(whole, stack[..depth], top);
        if !PrintPending(top) {
          depth := depth + 1;
          return;
        }
        rodata[rodataLen] := top.ins.first.value.ch;
        rodataLen := rodataLen + 1;
        whole := App(Leaf(top.ins.first.value), whole);
      }
      AbsorbNone(whole);
    }

    /** `.x` applied to a primitive: collects the pending `.x` above it into a string. Short ones
        are put back, as they do not optimize much. */
    method Fold(ch: byte, end: Prim, ghost apps: nat) returns (folded: bool)
      requires Valid() && Room(1 + apps)
      modifies this`textLen, this`rodataLen, this`depth, text, rodata
      ensures Valid() && Room(if folded then apps else 1 + apps)
      ensures
        var (whole, rest) := Absorb(true, App(Leaf(Out(ch)), Leaf(end)), old(stack[..depth]));
        && folded == Folds(true, whole)
        && Contents() == if folded then Produce(true, whole, old(Contents()).(stack := rest)) else old(Contents())
    {
      hide Absorb, Owed, Aimed;
      var oldRodataLen, oldDepth := rodataLen, depth;
      ghost var before := Contents();
      ghost var whole := Collect(ch, end);
      folded := rodataLen - oldRodataLen >= MIN_LEN;
      if !folded {
        rodataLen := oldRodataLen;
        depth := oldDepth;
        assert rodata[..rodataLen] == before.data;
      } else {
        AimedGrows(stack[..depth], textLen, textLen + 2);
        rodata[rodataLen] := 0;
        rodataLen := rodataLen + 1;
        Emit(Machine.Lc(oldRodataLen));
        Emit(Machine.Apply(None, Some(end)));
      }
    }

    /** A primitive applied to a primitive: an instruction or a string, then what waited for it. */
    method VisitPair(opt: bool, left: Prim, right: Prim, ghost tail: Todo)
      requires Valid() && Room(1 + AppsLeft(tail))
      modifies this, text, rodata, stack
      ensures Valid() && Room(AppsLeft(tail))
      ensures
        var e := App(Leaf(left), Leaf(right));
        Finish(opt, Cons(e.l, Cons(e.r, tail)), Contents()) == Finish(opt, Cons(e, tail), old(Contents()))
    {
      hide Absorb, Owed, Aimed, Unwind, Produce, Finish;
      ghost var g, e := Contents(), App(Leaf(left), Leaf(right));
      AimedGrows(g.stack, textLen, textLen + 1);
      var folded := false;
      if opt && left.Out? {
        folded := Fold(left.ch, right, AppsLeft(tail));
      } else {
        NoFold(opt, e, g.stack);
      }
      if folded {
        FoldStep(opt, e, tail, g);
      } else {
        PairStep(opt, e, tail, g);
        Emit(Machine.Apply(Some(left), Some(right)));
      }
      Flush();
    }

    /** Handles the node of the application `e` whose children start with `left` and `right`. */
    method Visit(opt: bool, left: Token, right: Token, ghost e: Expr, ghost tail: Todo)
      requires Valid() && Room(AppsLeft(Cons(e, tail)))
      requires e.App? && left == Flatten(e.l)[0] && right == Flatten(e.r)[0]
      modifies this, text, rodata, stack
      ensures Valid() && Room(AppsLeft(Cons(e.l, Cons(e.r, tail))))
      ensures Finish(opt, Cons(e.l, Cons(e.r, tail)), Contents()) == Finish(opt, Cons(e, tail), old(Contents()))
    {
      hide Owed, Aimed, Finish, Size, Flatten;
      FirstToken(e.l);
      FirstToken(e.r);
      if left.TFn? && right.TFn? {
        VisitPair(opt, left.p, right.p, tail);
        return;
      }
      ghost var g := Contents();
      EnterStep(opt, e, tail, g);
      AimedGrows(g.stack, textLen, textLen + 1);
      if left.TApp? {
        var p := Pending(if right.TApp? then Machine.Sa(0) else Machine.Apply(None, Some(right.p)), 0);
        PushFacts(g.stack, p, textLen);
        Push(p);
      } else if left.p == D {
        PushFacts(g.stack, Pending(Machine.La, textLen), textLen + 1);
        Emit(Machine.Del(0));
        Push(Pending(Machine.La, textLen - 1));
      } else {
        PushFacts(g.stack, Pending(Machine.Apply(Some(left.p), None), 0), textLen);
        Push(Pending(Machine.Apply(Some(left.p), None), 0));
      }
    }
  }

  lemma FirstToken(e: Expr)
    ensures Flatten(e)[0] == if e.App? then TApp else TFn(e.p)
  {
  }

  /** The node of an application: its children's nodes are where the array says. */
  lemma LaidApp(nodes: seq<Node>, i: nat, e: Expr, tail: Todo)
    requires e.App? && Laid(nodes, i, Cons(e, tail))
    ensures i + 1 < |nodes| && i + 1 <= nodes[i + 1].sibling < |nodes|
    ensures nodes[i].tok == Some(TApp)
    ensures nodes[i + 1].tok == Some(Flatten(e.l)[0]) && nodes[nodes[i + 1].sibling].tok == Some(Flatten(e.r)[0])
    ensures Laid(nodes, i + 1, Cons(e.l, Cons(e.r, tail)))
  {
    AtHead(nodes, i + 1, e.l);
    AtHead(nodes, i + 1 + Size(e.l), e.r);
  }

  lemma AtHead(nodes: seq<Node>, i: nat, e: Expr)
    requires At(nodes, i, e)
    ensures nodes[i].tok == Some(Flatten(e)[0])
  {
  }

  /** With nothing to do, the walk ends in the code of the recursive compiler. */
  lemma FinishRoot(opt: bool, root: Expr)
    ensures Finish(opt, Cons(root, Nil), Gen([], [], [])) == Gen(Text(opt, root, 0, 0), Data(opt, root), [])
  {
    hide Text, Data;
    LeafEmpty(opt, root, 0, 0);
    assert [] + Text(opt, root, 0, 0) == Text(opt, root, 0, 0);
    assert [] + Data(opt, root) == Data(opt, root);
  }

  /** `u6a_codegen`: one walk over the nodes of `root` leaves exactly the recursive compiler's text
      and strings in buffers that have one element for each node. */
  method Generate(ast: array<Node>, opt: bool, ghost root: Expr) returns (text: seq<Ins>, rodata: seq<byte>)
    requires At(ast[..], 0, root) && ast.Length == Size(root)
    ensures text == Text(opt, root, 0, 0)
    ensures rodata == Data(opt, root)
    ensures |text| <= 2 * Apps(root) && |rodata| <= ast.Length
  {
    hide Owed, Aimed, At, Finish, Laid, Generator.Room;
    var gen := new Generator(ast.Length);
    ghost var todo := Cons(root, Nil);
    LaidRoot(ast[..], root);
    var i := 0;
    while i < ast.Length
      invariant fresh(gen) && fresh(gen.text) && fresh(gen.rodata) && fresh(gen.stack)
      invariant gen.text.Length == gen.rodata.Length == gen.stack.Length == ast.Length
      invariant i <= ast.Length && Laid(ast[..], i, todo)
      invariant gen.Valid() && gen.Room(AppsLeft(todo))
      invariant Finish(opt, todo, gen.Contents()) == Finish(opt, Cons(root, Nil), Gen([], [], []))
      decreases ast.Length - i
    {
      var node := ast[i];
      LaidHead(ast[..], i, todo);
      if node.tok == Some(TApp) {
        LaidApp(ast[..], i, todo.head, todo.tail);
        var left := ast[i + 1];
        var right := ast[left.sibling];
        gen.Visit(opt, left.tok.value, right.tok.value, todo.head, todo.tail);
        todo := Cons(todo.head.l, Cons(todo.head.r, todo.tail));
      } else {
        FinishLeaf(opt, todo, gen.Contents());
        todo := todo.tail;
      }
      i := i + 1;
    }
    LaidNil(ast[..], todo);
    FinishNil(opt, gen.Contents());
    FinishRoot(opt, root);
    text, rodata := gen.text[..gen.textLen], gen.rodata[..gen.rodataLen];
    TextBound(opt, root);
  }

  lemma LaidRoot(nodes: seq<Node>, root: Expr)
    requires At(nodes, 0, root) && |nodes| == Size(root)
    ensures Laid(nodes, 0, Cons(root, Nil)) && AppsLeft(Cons(root, Nil)) == Apps(root)
  {
  }

  lemma LaidHead(nodes: seq<Node>, i: nat, todo: Todo)
    requires Laid(nodes, i, todo) && i < |nodes|
    ensures todo.Cons? && (todo.head.App? <==> nodes[i].tok == Some(TApp))
    ensures todo.head.Leaf? ==> Laid(nodes, i + 1, todo.tail)
  {
  }

  lemma LaidNil(nodes: seq<Node>, todo: Todo)
    requires Laid(nodes, |nodes|, todo)
    ensures todo.Nil?
  {
  }

  lemma FinishLeaf(opt: bool, todo: Todo, g: Gen)
    requires todo.Cons? && todo.head.Leaf?
    ensures Finish(opt, todo, g) == Finish(opt, todo.tail, g)
  {
  }

  lemma FinishNil(opt: bool, g: Gen)
    ensures Finish(opt, Nil, g) == g
  {
  }

  /** At most two instructions for each application. */
  lemma {:induction false} TextBound(opt: bool, e: Expr)
    ensures Len(opt, e) <= 2 * Apps(e)
    decreases e
  {
    if e.App? {
      TextBound(opt, e.l);
      TextBound(opt, e.r);
      if Folds(opt, e) {
        assert e.r.App?;
      }
    }
  }

  lemma NoFold(opt: bool, e: Expr, stack: seq<Pending>)
    requires !opt || !(e.App? && e.l.Leaf? && e.l.p.Out?)
    ensures !Folds(opt, Absorb(opt, e, stack).0)
  {
  }
}
