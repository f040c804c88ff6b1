/** The main theorems: compiled programs do what the language says, whatever the optimizations. */
module Correctness {
  import opened Syntax
  import opened Seqs
  import opened Compile
  import opened Simulation
  import opened Ast
  import R = Reference
  import M = Machine
  import Lexer
  import Parser
  import Codegen
  import Vm

  /** What the VM runs for the user's expression `e`: it is wrapped in the guard `e`, compiled with
      or without string folding, and loaded into a VM with or without tail-call elimination. */
  function Built(e: Expr, opt: bool, tce: bool): M.Image {
    var root := App(Leaf(E), e);
    M.Load(Text(opt, root, 0, 0), Data(opt, root), tce)
  }

  /** At the start, both machines are about to evaluate the user's expression. */
  lemma StartRelated(e: Expr, input: seq<byte>, opt: bool, tce: bool)
    requires NoNul(e)
    ensures Based(Built(e, opt, tce))
    ensures Rel(Built(e, opt, tce), opt, R.Boot(e, input), M.Boot(input))
  {
    hide Placed, Text, Data, Len, Has, Built;
    var im := Built(e, opt, tce);
    assert |M.SUBST| == M.SUBST_LEN;
    BuiltParts(e, opt, tce);
    var last := M.Apply(Some(E), if e.App? then None else Some(e.p));
    LoadedParts(M.SUBST, Text(opt, e, 0, 0), last);
    if e.App? {
      LoadedHas([], Data(opt, e), []);
      assert [] + Data(opt, e) + [] == Data(opt, e);
      TextPlaced(im, opt, e, 0, 0);
    }
  }

  /** Behind the shared routine stand the expression's own code and one instruction more. */
  lemma BuiltParts(e: Expr, opt: bool, tce: bool)
    ensures
      var im := Built(e, opt, tce);
      && im.text == M.SUBST + Text(opt, e, 0, 0) + [M.Apply(Some(E), if e.App? then None else Some(e.p))]
      && im.rodata == Data(opt, e)
      && (e.Leaf? ==> Text(opt, e, 0, 0) == [])
  {
    hide Data, Has, Placed, M.SUBST;
    hide Text, Len;
    var root := App(Leaf(E), e);
    LeafParts(opt, root);
    TextParts(opt, root, 0, 0);
    var code := Text(opt, e, 0, 0);
    var last := [M.Apply(Some(E), if e.App? then None else Some(e.p))];
    assert Text(opt, root, 0, 0) == code + last;
    assert M.SUBST + (code + last) == M.SUBST + code + last;
  }

  lemma LoadedParts<T>(pre: seq<T>, s: seq<T>, x: T)
    ensures Has(pre + s + [x], |pre|, s) && (pre + s + [x])[..|pre|] == pre && (pre + s + [x])[|pre| + |s|] == x
  {
  }

  lemma LeafParts(opt: bool, root: Expr)
    requires root.App? && root.l == Leaf(E)
    ensures !Folds(opt, root) && Text(opt, root.l, 0, 0) == [] && Len(opt, root.l) == 0
    ensures Data(opt, root) == Data(opt, root.r) && Data(opt, root.l) == []
    ensures root.r.Leaf? ==> Text(opt, root.r, 0, 0) == []
  {
  }

  lemma LoadedHas<T>(pre: seq<T>, s: seq<T>, post: seq<T>)
    ensures Has(pre + s + post, |pre|, s)
  {
  }

  /** The reference machine after `i` steps of the program `e` on `input`. */
  function RefAt(e: Expr, input: seq<byte>, i: nat): R.State {
    R.Run(R.Boot(e, input), i)
  }

  /** The VM after `j` instructions of the compiled program. */
  function VmAt(e: Expr, input: seq<byte>, opt: bool, tce: bool, j: nat): M.State {
    M.Run(Built(e, opt, tce), M.Boot(input), j)
  }

  /** Every state of the VM's run stands for a state of the reference run. */
  lemma EveryStateMatched(e: Expr, input: seq<byte>, opt: bool, tce: bool, j: nat) returns (i: nat)
    requires NoNul(e)
    ensures Rel(Built(e, opt, tce), opt, RefAt(e, input, i), VmAt(e, input, opt, tce, j))
  {
    StartRelated(e, input, opt, tce);
    i := Follow(Built(e, opt, tce), opt, R.Boot(e, input), M.Boot(input), j);
  }

  /** The two runs meet again and again: beyond any number of steps of either there is a point
      where they stand together. */
  lemma RunsMeet(e: Expr, input: seq<byte>, opt: bool, tce: bool, least: nat) returns (i: nat, j: nat)
    requires NoNul(e)
    ensures i >= least && j >= least
    ensures Rel(Built(e, opt, tce), opt, RefAt(e, input, i), VmAt(e, input, opt, tce, j))
  {
    StartRelated(e, input, opt, tce);
    i, j := Advance(Built(e, opt, tce), opt, R.Boot(e, input), M.Boot(input), least);
  }

  /** The compiled program never faults: no stack underflow, no jump out of the text, no invalid
      opcode or function. */
  lemma NeverFaults(e: Expr, input: seq<byte>, opt: bool, tce: bool)
    requires NoNul(e)
    ensures forall j: nat :: !VmAt(e, input, opt, tce, j).Faulted?
  {
    forall j: nat
      ensures !VmAt(e, input, opt, tce, j).Faulted?
    {
      var i := EveryStateMatched(e, input, opt, tce, j);
    }
  }

  /** Every state the VM reaches is sound: jumps stay inside the text, the stack keeps its shape, no
      marker enters the accumulator. */
  lemma ReachableSound(e: Expr, input: seq<byte>, opt: bool, tce: bool, j: nat)
    requires NoNul(e)
    ensures M.Sound(Built(e, opt, tce), VmAt(e, input, opt, tce, j))
  {
    StartRelated(e, input, opt, tce);
    var i := EveryStateMatched(e, input, opt, tce, j);
    RelSound(Built(e, opt, tce), opt, RefAt(e, input, i), VmAt(e, input, opt, tce, j));
  }

  /** If the program ends, the VM halts, and where both have stopped they agree on the value, on all
      output and on the input consumed. */
  lemma ExitHalts(e: Expr, input: seq<byte>, opt: bool, tce: bool, i: nat) returns (j: nat)
    requires NoNul(e) && RefAt(e, input, i).config.Exit?
    ensures VmAt(e, input, opt, tce, j).Halted?
    ensures Rel(Built(e, opt, tce), opt, RefAt(e, input, i), VmAt(e, input, opt, tce, j))
  {
    var i';
    i', j := RunsMeet(e, input, opt, tce, i);
    R.ExitStays(R.Boot(e, input), i, i');
  }

  lemma HaltExits(e: Expr, input: seq<byte>, opt: bool, tce: bool, j: nat) returns (i: nat)
    requires NoNul(e) && VmAt(e, input, opt, tce, j).Halted?
    ensures RefAt(e, input, i).config.Exit?
    ensures Rel(Built(e, opt, tce), opt, RefAt(e, input, i), VmAt(e, input, opt, tce, j))
  {
    i := EveryStateMatched(e, input, opt, tce, j);
  }

  /** Both have stopped: the same value, the same output, the same input consumed. */
  lemma SameOutcome(e: Expr, input: seq<byte>, opt: bool, tce: bool, i: nat, j: nat)
    requires NoNul(e) && RefAt(e, input, i).config.Exit? && VmAt(e, input, opt, tce, j).Halted?
    ensures Rel(Built(e, opt, tce), opt, RefAt(e, input, i), VmAt(e, input, opt, tce, j))
  {
    var i' := HaltExits(e, input, opt, tce, j);
    if i <= i' {
      R.ExitStays(R.Boot(e, input), i, i');
    } else {
      R.ExitStays(R.Boot(e, input), i', i);
    }
  }

  /** Whatever the reference run has written, the VM writes, and the other way round, also when the
      program runs forever. */
  lemma SameOutput(e: Expr, input: seq<byte>, opt: bool, tce: bool, n: nat) returns (i: nat, j: nat)
    requires NoNul(e)
    ensures RefAt(e, input, n).io.output <= VmAt(e, input, opt, tce, j).io.output
    ensures VmAt(e, input, opt, tce, n).io.output <= RefAt(e, input, i).io.output
  {
    i, j := RunsMeet(e, input, opt, tce, n);
    R.OutputGrows(R.Boot(e, input), n, i);
    M.OutputGrows(Built(e, opt, tce), M.Boot(input), n, j);
  }

  ghost predicate Ends(e: Expr, input: seq<byte>) {
    exists i: nat :: RefAt(e, input, i).config.Exit?
  }

  ghost predicate Halts(e: Expr, input: seq<byte>, opt: bool, tce: bool) {
    exists j: nat :: VmAt(e, input, opt, tce, j).Halted?
  }

  /** Where the VM has halted, it returned a value that stands for `v` and left the world as in `io`. */
  ghost predicate HaltsWith(e: Expr, input: seq<byte>, opt: bool, tce: bool, j: nat, v: R.Value, io: Io) {
    && VmAt(e, input, opt, tce, j).Halted?
    && RelV(Built(e, opt, tce), opt, v, VmAt(e, input, opt, tce, j).result)
    && VmAt(e, input, opt, tce, j).io == io
  }

  /** Compiler correctness in one statement: the compiled program never faults, halts exactly if the
      program ends, and then with the program's value, output and consumed input. */
  lemma CompilerCorrect(e: Expr, input: seq<byte>, opt: bool, tce: bool)
    requires NoNul(e)
    ensures forall j: nat :: !VmAt(e, input, opt, tce, j).Faulted?
    ensures Halts(e, input, opt, tce) <==> Ends(e, input)
    ensures forall i: nat, j: nat :: RefAt(e, input, i).config.Exit? && VmAt(e, input, opt, tce, j).Halted? ==>
              HaltsWith(e, input, opt, tce, j, RefAt(e, input, i).config.v, RefAt(e, input, i).io)
  {
    hide RelV, RelK, RefAt, VmAt, Built;
    NeverFaults(e, input, opt, tce);
    if Ends(e, input) {
      var i: nat :| RefAt(e, input, i).config.Exit?;
      var j := ExitHalts(e, input, opt, tce, i);
    }
    if Halts(e, input, opt, tce) {
      var j: nat :| VmAt(e, input, opt, tce, j).Halted?;
      var i := HaltExits(e, input, opt, tce, j);
    }
    forall i: nat, j: nat | RefAt(e, input, i).config.Exit? && VmAt(e, input, opt, tce, j).Halted?
      ensures HaltsWith(e, input, opt, tce, j, RefAt(e, input, i).config.v, RefAt(e, input, i).io)
    {
      SameOutcome(e, input, opt, tce, i, j);
    }
  }

  /** String folding and tail-call elimination are sound: with or without either, the program halts
      on the same inputs, and then with values that stand for the same thing, the same output and the
      same input consumed. */
  lemma OptimizationsSound(e: Expr, input: seq<byte>, opt: bool, tce: bool, opt': bool, tce': bool)
    requires NoNul(e)
    ensures Halts(e, input, opt, tce) <==> Halts(e, input, opt', tce')
    ensures forall j: nat, j': nat ::
              VmAt(e, input, opt, tce, j).Halted? && VmAt(e, input, opt', tce', j').Halted? ==>
              exists v, io :: HaltsWith(e, input, opt, tce, j, v, io) && HaltsWith(e, input, opt', tce', j', v, io)
  {
    hide RelV, RelK, RefAt, VmAt, Built;
    CompilerCorrect(e, input, opt, tce);
    CompilerCorrect(e, input, opt', tce');
    forall j: nat, j': nat | VmAt(e, input, opt, tce, j).Halted? && VmAt(e, input, opt', tce', j').Halted?
      ensures exists v, io :: HaltsWith(e, input, opt, tce, j, v, io) && HaltsWith(e, input, opt', tce', j', v, io)
    {
      var i := HaltExits(e, input, opt, tce, j);
      var s := RefAt(e, input, i);
      assert HaltsWith(e, input, opt, tce, j, s.config.v, s.io) &&
          HaltsWith(e, input, opt', tce', j', s.config.v, s.io);
    }
  }

  /** With tail-call elimination and without it, the VM comes to stand for one and the same reference
      state again and again, arbitrarily late in both runs. */
  lemma TailCallsMeet(e: Expr, input: seq<byte>, opt: bool, least: nat) returns (i: nat, j: nat, j': nat)
    requires NoNul(e)
    ensures i >= least && j >= least && j' >= least
    ensures Rel(Built(e, opt, true), opt, RefAt(e, input, i), VmAt(e, input, opt, true, j))
    ensures Rel(Built(e, opt, false), opt, RefAt(e, input, i), VmAt(e, input, opt, false, j'))
  {
    StartRelated(e, input, opt, true);
    StartRelated(e, input, opt, false);
    i, j, j' := AdvanceBoth(Built(e, opt, true), Built(e, opt, false), opt, R.Boot(e, input), M.Boot(input),
      M.Boot(input), least);
  }

  /** ... and on programs that run forever they write the same: each catches up with the other. */
  lemma OptimizationsKeepPace(e: Expr, input: seq<byte>, opt: bool, tce: bool, opt': bool, tce': bool,
      j: nat) returns (j': nat)
    requires NoNul(e)
    ensures VmAt(e, input, opt, tce, j).io.output <= VmAt(e, input, opt', tce', j').io.output
  {
    var i, _ := SameOutput(e, input, opt, tce, j);
    var _, k := SameOutput(e, input, opt', tce', i);
    j' := k;
  }

  /** Every token of `e` can be written, so no character in it is zero. */
  lemma {:induction false} PlainNoNul(e: Expr)
    requires forall i :: 0 <= i < |Flatten(e)| ==> Lexer.Plain(Flatten(e)[i])
    ensures NoNul(e)
    decreases e
  {
    var s := Flatten(e);
    if e.App? {
      forall i | 0 <= i < |Flatten(e.l)|
        ensures Lexer.Plain(Flatten(e.l)[i])
      {
        assert Flatten(e.l)[i] == s[1 + i];
      }
      forall i | 0 <= i < |Flatten(e.r)|
        ensures Lexer.Plain(Flatten(e.r)[i])
      {
        assert Flatten(e.r)[i] == s[1 + |Flatten(e.l)| + i];
      }
      PlainNoNul(e.l);
      PlainNoNul(e.r);
    } else {
      assert Lexer.Plain(s[0]);
    }
  }

  /** What a compilation comes to. */
  datatype Outcome = LexError | SyntaxError | Bytecode(text: seq<M.Ins>, rodata: seq<byte>)

  /** The source writes the tokens of `e`. */
  ghost predicate Means(source: seq<byte>, e: Expr) {
    Lexer.Scan(source, 0) == Lexer.Lexed(Flatten(e))
  }

  /** The compiler from source to bytecode (src/u6ac.c:205-225): it succeeds exactly on the sources
      that write one expression, and what it emits, loaded, is what the theorems above speak of. */
  method CompileSource(source: seq<byte>, opt: bool) returns (r: Outcome, ghost e: Expr)
    ensures r.LexError? <==> Lexer.Scan(source, 0).Rejected?
    ensures r.Bytecode? <==> exists x :: Means(source, x)
    ensures r.Bytecode? ==>
      && Means(source, e) && NoNul(e)
      && forall tce :: M.Load(r.text, r.rodata, tce) == Built(e, opt, tce)
  {
    e := Leaf(E);
    var lexed := Lexer.Lex(source);
    if lexed.Rejected? {
      return LexError, e;
    }
    Lexer.ScanPlain(source);
    var ok, ast, tree := Parser.Parse(lexed.tokens);
    if !ok {
      return SyntaxError, e;
    }
    e := tree;
    PlainNoNul(e);
    var root := App(Leaf(E), e);
    assert ast[..] == ast[..][0..0 + Size(root)];
    LayoutAt(ast[..], root, 0, 0);
    assert Means(source, e);
    var text, rodata := Codegen.Generate(ast, opt, root);
    r := Bytecode(text, rodata);
  }

  /** Printing an expression, with anything blank between the tokens, gives a source that means this
      expression and no other. */
  lemma PrintedMeans(e: Expr, gaps: seq<seq<byte>>)
    requires |gaps| == Size(e) + 1 && Size(e) <= Lexer.MAX_LEN
    requires forall i :: 0 <= i < Size(e) ==> Lexer.Plain(Flatten(e)[i])
    requires forall i :: 0 <= i < |gaps| ==> Lexer.Blank(gaps[i], i == Size(e))
    ensures
      var words := seq(Size(e), i requires 0 <= i < Size(e) => Lexer.Spell(Flatten(e)[i]));
      forall x :: Means(Lexer.Render(gaps, words), x) <==> x == e
  {
    hide Flatten, Lexer.Scan, Lexer.Render, Lexer.Blank, Lexer.Plain, Lexer.Spell;
    var tokens := Flatten(e);
    Lexer.PrintLex(gaps, tokens);
    var words := seq(|tokens|, i requires 0 <= i < |tokens| => Lexer.Spell(tokens[i]));
    assert words == seq(Size(e), i requires 0 <= i < Size(e) => Lexer.Spell(Flatten(e)[i]));
    forall x | Flatten(x) == tokens
      ensures x == e
    {
      assert Flatten(x) + [] == Flatten(e) + [];
      FlattenUnique(x, [], e, []);
    }
  }

  /** Compile, load and run: what the interpreter has come to after `fuel` instructions stands for a
      state of the program's reference run. */
  method RunSource(source: seq<byte>, input: seq<byte>, opt: bool, fuel: nat)
      returns (r: Option<M.State>, ghost e: Expr)
    ensures r.Some? <==> exists x :: Means(source, x)
    ensures r.Some? ==>
      && Means(source, e) && r.value == VmAt(e, input, opt, true, fuel)
      && exists i: nat :: Rel(Built(e, opt, true), opt, RefAt(e, input, i), r.value)
  {
    hide Rel;
    var out;
    out, e := CompileSource(source, opt);
    if !out.Bytecode? {
      return None, e;
    }
    var vm := new Vm.Interpreter(M.Load(out.text, out.rodata, true), input);
    vm.Execute(fuel);
    var i := EveryStateMatched(e, input, opt, true, fuel);
    r := Some(vm.View());
    assert Rel(Built(e, opt, true), opt, RefAt(e, input, i), r.value);
  }

  /** From source text to behaviour, for every source the compiler accepts. */
  lemma EndToEnd(source: seq<byte>, e: Expr, input: seq<byte>, opt: bool, tce: bool)
    requires Means(source, e)
    ensures NoNul(e)
    ensures forall j: nat :: !VmAt(e, input, opt, tce, j).Faulted?
    ensures Halts(e, input, opt, tce) <==> Ends(e, input)
    ensures forall i: nat, j: nat :: RefAt(e, input, i).config.Exit? && VmAt(e, input, opt, tce, j).Halted? ==>
              HaltsWith(e, input, opt, tce, j, RefAt(e, input, i).config.v, RefAt(e, input, i).io)
  {
    Lexer.ScanPlain(source);
    PlainNoNul(e);
    CompilerCorrect(e, input, opt, tce);
  }
}
