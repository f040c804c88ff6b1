/** Small programs and what they do: each primitive seen from outside, on every input, in the reference
    machine and compiled on the VM. */
module Programs {
  import opened Syntax
  import opened Ast
  import opened Compile
  import opened Simulation
  import opened Correctness
  import R = Reference
  import M = Machine
  import Lexer

  /** The program ends, having written `out`; compiled, it does so too, whatever the settings. */
  ghost predicate Writes(e: Expr, input: seq<byte>, out: seq<byte>) {
    && (exists i: nat :: RefAt(e, input, i).config.Exit? && RefAt(e, input, i).io.output == out)
    && forall opt, tce :: VmWrites(e, input, opt, tce, out)
  }

  ghost predicate VmWrites(e: Expr, input: seq<byte>, opt: bool, tce: bool, out: seq<byte>) {
    && (exists j: nat :: VmAt(e, input, opt, tce, j).Halted?)
    && (forall j: nat :: VmAt(e, input, opt, tce, j).Halted? ==> VmAt(e, input, opt, tce, j).io.output == out)
  }

  lemma EndsWriting(e: Expr, input: seq<byte>, i: nat)
    requires NoNul(e) && RefAt(e, input, i).config.Exit?
    ensures Writes(e, input, RefAt(e, input, i).io.output)
  {
    hide RefAt, VmAt, Built, RelV, RelK;
    var out := RefAt(e, input, i).io.output;
    forall opt, tce
      ensures VmWrites(e, input, opt, tce, out)
    {
      var j := ExitHalts(e, input, opt, tce, i);
      forall j: nat | VmAt(e, input, opt, tce, j).Halted?
        ensures VmAt(e, input, opt, tce, j).io.output == out
      {
        SameOutcome(e, input, opt, tce, i, j);
      }
    }
  }

  lemma NoNulAll()
    ensures forall a: Expr, b: Expr :: NoNul(App(a, b)) <==> NoNul(a) && NoNul(b)
    ensures forall p: Prim :: NoNul(Leaf(p)) <==> !(p.Out? && p.ch == 0)
  {
  }

  /** A run in four parts. */
  lemma Parts(s: R.State, i: nat, j: nat, k: nat, l: nat)
    ensures R.Run(s, i + j + k + l) == R.Run(R.Run(R.Run(R.Run(s, i), j), k), l)
  {
    hide R.Step;
    R.RunAdd(s, i, j);
    R.RunAdd(s, i + j, k);
    R.RunAdd(s, i + j + k, l);
  }

  lemma Arrives(e: Expr, input: seq<byte>, i: nat, j: nat, k: nat, l: nat)
    requires NoNul(e) && R.Run(R.Run(R.Run(R.Run(R.Boot(e, input), i), j), k), l).config.Exit?
    ensures Writes(e, input, R.Run(R.Run(R.Run(R.Run(R.Boot(e, input), i), j), k), l).io.output)
  {
    hide Writes, R.Run, R.Step;
    Parts(R.Boot(e, input), i, j, k, l);
    EndsWriting(e, input, i + j + k + l);
  }

  predicate Printable(x: byte) {
    32 <= x <= 126 || x == 10
  }

  /** ```k.x.yi: the first of two is kept. */
  lemma KeepsFirst(x: byte, y: byte, input: seq<byte>)
    requires Printable(x) && Printable(y)
    ensures Writes(App(App(App(Leaf(K), Leaf(Out(x))), Leaf(Out(y))), Leaf(I)), input, [x])
  {
    var e := App(App(App(Leaf(K), Leaf(Out(x))), Leaf(Out(y))), Leaf(I));
    hide Writes;
    Parts(R.Boot(e, input), 8, 8, 1, 0);
    var s1 := R.Run(R.Boot(e, input), 8);
    var s2 := R.Run(s1, 8);
    var s3 := R.Run(s2, 1);
    assert s3.config.Exit? && s3.io.output == [x];
    NoNulAll();
    EndsWriting(e, input, 17);
  }

  /** ``v.xi: nothing gets past `v`. */
  lemma Absorbs(x: byte, input: seq<byte>)
    requires Printable(x)
    ensures Writes(App(App(Leaf(V), Leaf(Out(x))), Leaf(I)), input, [])
  {
    var e := App(App(Leaf(V), Leaf(Out(x))), Leaf(I));
    hide Writes;
    Parts(R.Boot(e, input), 8, 4, 0, 0);
    var s1 := R.Run(R.Boot(e, input), 8);
    var s2 := R.Run(s1, 4);
    assert s2.config.Exit? && s2.io.output == [];
    NoNulAll();
    EndsWriting(e, input, 12);
  }

  /** `.x`.yi: the argument comes first. */
  lemma ArgumentFirst(x: byte, y: byte, input: seq<byte>)
    requires Printable(x) && Printable(y)
    ensures Writes(App(Leaf(Out(x)), App(Leaf(Out(y)), Leaf(I))), input, [y, x])
  {
    var e := App(Leaf(Out(x)), App(Leaf(Out(y)), Leaf(I)));
    hide Writes;
    Parts(R.Boot(e, input), 8, 4, 0, 0);
    var s1 := R.Run(R.Boot(e, input), 8);
    var s2 := R.Run(s1, 4);
    assert s2.config.Exit? && s2.io.output == [y, x];
    NoNulAll();
    EndsWriting(e, input, 12);
  }

  /** `.x`ei: `e` ends the program then and there. */
  lemma EndsAtOnce(x: byte, input: seq<byte>)
    requires Printable(x)
    ensures Writes(App(Leaf(Out(x)), App(Leaf(E), Leaf(I))), input, [])
  {
    var e := App(Leaf(Out(x)), App(Leaf(E), Leaf(I)));
    hide Writes;
    Parts(R.Boot(e, input), 8, 1, 0, 0);
    var s1 := R.Run(R.Boot(e, input), 8);
    var s2 := R.Run(s1, 1);
    assert s2.config.Exit? && s2.io.output == [];
    NoNulAll();
    EndsWriting(e, input, 9);
  }

  /** ```s`k.x.yi is ``.x ... of the two applications to `i`: `.yi` runs second, its value is an argument of
      `.x`, so that `x` is written last. */
  lemma Distributes(x: byte, y: byte, input: seq<byte>)
    requires Printable(x) && Printable(y)
    ensures Writes(App(App(App(Leaf(S), App(Leaf(K), Leaf(Out(x)))), Leaf(Out(y))), Leaf(I)), input, [y, x])
  {
    hide Writes, R.Run, R.Step;
    NoNulAll();
    DistributesFrom(x, y, input);
    DistributesOn(x, y, Start(input));
    assert Start(input).output + [y] + [x] == [y, x];
    Arrives(App(App(App(Leaf(S), App(Leaf(K), Leaf(Out(x)))), Leaf(Out(y))), Leaf(I)), input, 8, 8, 4, 7);
  }

  lemma DistributesFrom(x: byte, y: byte, input: seq<byte>)
    ensures
      var e := App(App(App(Leaf(S), App(Leaf(K), Leaf(Out(x)))), Leaf(Out(y))), Leaf(I));
      R.Run(R.Run(R.Boot(e, input), 8), 8)
      == R.State(R.Call(R.S1(R.K1(R.Fn(Out(x)))), R.Fn(Out(y)), R.Arg(Leaf(I), R.Stop)), Start(input))
  {
    var e := App(App(App(Leaf(S), App(Leaf(K), Leaf(Out(x)))), Leaf(Out(y))), Leaf(I));
    var k := R.Fun(R.Fn(S), R.Arg(Leaf(Out(y)), R.Arg(Leaf(I), R.Stop)));
    assert R.Run(R.Boot(e, input), 8) == R.State(R.Eval(Leaf(Out(x)), R.Fun(R.Fn(K), k)), Start(input));
  }

  lemma DistributesOn(x: byte, y: byte, io: Io)
    ensures
      var s := R.State(R.Call(R.S1(R.K1(R.Fn(Out(x)))), R.Fn(Out(y)), R.Arg(Leaf(I), R.Stop)), io);
      R.Run(R.Run(s, 4), 7) == R.State(R.Exit(R.Fn(I)), Io(io.input, io.pos, io.cur, io.output + [y] + [x]))
  {
    var f := R.S2(R.K1(R.Fn(Out(x))), R.Fn(Out(y)));
    var s := R.State(R.Call(R.S1(R.K1(R.Fn(Out(x)))), R.Fn(Out(y)), R.Arg(Leaf(I), R.Stop)), io);
    assert R.Run(s, 4) == R.State(R.Call(f, R.Fn(I), R.Stop), io);
  }

  /** The ways to delay `.xi`: by `d` itself, by a `d` that is computed, and in the middle of `s`. */
  function Delays(x: byte): seq<Expr> {
    var write := App(Leaf(Out(x)), Leaf(I));
    [App(Leaf(D), write),
     App(App(Leaf(I), Leaf(D)), write),
     App(App(App(Leaf(S), App(Leaf(K), Leaf(D))), Leaf(Out(x))), Leaf(I))]
  }

  /** None of them writes anything; applied to `i`, each writes `x` once. */
  lemma DelaysForce(x: byte, input: seq<byte>, n: nat)
    requires Printable(x) && n < 3
    ensures Writes(Delays(x)[n], input, []) && Writes(App(Delays(x)[n], Leaf(I)), input, [x])
  {
    hide Writes;
    var write := App(Leaf(Out(x)), Leaf(I));
    if n == 0 {
      var e := App(Leaf(D), write);
      Parts(R.Boot(e, input), 4, 0, 0, 0);
      var s1 := R.Run(R.Boot(e, input), 4);
      assert s1.config.Exit? && s1.io.output == [];
      NoNulAll();
      EndsWriting(e, input, 4);
      ForcedByD(x, input);
    } else if n == 1 {
      var e := App(App(Leaf(I), Leaf(D)), write);
      Parts(R.Boot(e, input), 8, 1, 0, 0);
      var s1 := R.Run(R.Boot(e, input), 8);
      var s2 := R.Run(s1, 1);
      assert s2.config.Exit? && s2.io.output == [];
      NoNulAll();
      EndsWriting(e, input, 9);
      ForcedByValue(x, input);
    } else {
      var e := App(App(App(Leaf(S), App(Leaf(K), Leaf(D))), Leaf(Out(x))), Leaf(I));
      Parts(R.Boot(e, input), 23, 1, 0, 0);
      DelayedByS(x, R.Stop, Start(input));
      NoNulAll();
      EndsWriting(e, input, 24);
      ForcedByS(x, input);
    }
  }

  /** In the middle of `s`, the right half is delayed. */
  lemma DelayedByS(x: byte, k: R.Kont, io: Io)
    ensures R.Run(R.State(R.Eval(Delays(x)[2], k), io), 23)
         == R.State(R.Ret(R.Promise(R.Later(R.Fn(Out(x)), R.Fn(I))), k), io)
  {
    var s := R.State(R.Eval(Delays(x)[2], k), io);
    Parts(s, 8, 8, 7, 0);
    var s1 := R.Run(s, 8);
    var k1 := R.Fun(R.Fn(S), R.Arg(Leaf(Out(x)), R.Arg(Leaf(I), k)));
    assert s1 == R.State(R.Eval(Leaf(D), R.Fun(R.Fn(K), k1)), io);
    var s2 := R.Run(s1, 8);
    var s3 := R.Run(s2, 7);
    assert R.Run(s3, 0) == s3;
  }

  lemma ForcedByD(x: byte, input: seq<byte>)
    requires Printable(x)
    ensures Writes(App(Delays(x)[0], Leaf(I)), input, [x])
  {
    hide Writes;
    var e := App(App(Leaf(D), App(Leaf(Out(x)), Leaf(I))), Leaf(I));
    Parts(R.Boot(e, input), 8, 8, 1, 0);
    var s1 := R.Run(R.Boot(e, input), 8);
    var s2 := R.Run(s1, 8);
    var s3 := R.Run(s2, 1);
    assert s3.config.Exit? && s3.io.output == [x];
    NoNulAll();
    EndsWriting(e, input, 17);
  }

  lemma ForcedByValue(x: byte, input: seq<byte>)
    requires Printable(x)
    ensures Writes(App(Delays(x)[1], Leaf(I)), input, [x])
  {
    hide Writes;
    var e := App(App(App(Leaf(I), Leaf(D)), App(Leaf(Out(x)), Leaf(I))), Leaf(I));
    Parts(R.Boot(e, input), 8, 8, 6, 0);
    var s1 := R.Run(R.Boot(e, input), 8);
    var s2 := R.Run(s1, 8);
    var s3 := R.Run(s2, 6);
    assert s3.config.Exit? && s3.io.output == [x];
    NoNulAll();
    EndsWriting(e, input, 22);
  }

  lemma ForcedByS(x: byte, input: seq<byte>)
    requires Printable(x)
    ensures Writes(App(Delays(x)[2], Leaf(I)), input, [x])
  {
    hide Writes, R.Run, R.Step;
    NoNulAll();
    Descends(Delays(x)[2], Leaf(I), input);
    DelayedByS(x, R.Arg(Leaf(I), R.Stop), Start(input));
    ForcesLater(x, Start(input));
    assert Start(input).output + [x] == [x];
    Arrives(App(Delays(x)[2], Leaf(I)), input, 1, 23, 8, 0);
  }

  lemma Descends(l: Expr, r: Expr, input: seq<byte>)
    ensures R.Run(R.Boot(App(l, r), input), 1) == R.State(R.Eval(l, R.Arg(r, R.Stop)), Start(input))
  {
  }

  lemma ForcesLater(x: byte, io: Io)
    ensures
      var s := R.State(R.Ret(R.Promise(R.Later(R.Fn(Out(x)), R.Fn(I))), R.Arg(Leaf(I), R.Stop)), io);
      R.Run(R.Run(s, 8), 0) == R.State(R.Exit(R.Fn(I)), Io(io.input, io.pos, io.cur, io.output + [x]))
  {
    var s := R.State(R.Ret(R.Promise(R.Later(R.Fn(Out(x)), R.Fn(I))), R.Arg(Leaf(I), R.Stop)), io);
    var t := R.Run(s, 8);
    assert R.Run(t, 0) == t;
  }

  /** ```sdi.y: a promise of the value `.y`, forced by applying it to `.y`. */
  lemma ForcesValue(y: byte, input: seq<byte>)
    requires Printable(y)
    ensures Writes(App(App(App(Leaf(S), Leaf(D)), Leaf(I)), Leaf(Out(y))), input, [y])
  {
    hide Writes, R.Run, R.Step;
    NoNulAll();
    ForcesValueFrom(y, input);
    assert Start(input).output + [y] == [y];
    Arrives(App(App(App(Leaf(S), Leaf(D)), Leaf(I)), Leaf(Out(y))), input, 8, 8, 8, 0);
  }

  lemma ForcesValueFrom(y: byte, input: seq<byte>)
    ensures
      var e := App(App(App(Leaf(S), Leaf(D)), Leaf(I)), Leaf(Out(y)));
      R.Run(R.Run(R.Run(R.Run(R.Boot(e, input), 8), 8), 8), 0)
      == R.State(R.Exit(R.Fn(Out(y))), Io(input, 0, None, Start(input).output + [y]))
  {
    var e := App(App(App(Leaf(S), Leaf(D)), Leaf(I)), Leaf(Out(y)));
    var s1 := R.Run(R.Boot(e, input), 8);
    var s2 := R.Run(s1, 8);
    var s3 := R.Run(s2, 8);
    assert R.Run(s3, 0) == s3;
  }

  /** ```@?x.yi writes `y` if the first byte of the input is `x`, and otherwise nothing. */
  lemma Compares(x: byte, y: byte, input: seq<byte>)
    requires Printable(x) && Printable(y)
    ensures
      Writes(App(App(App(Leaf(In), Leaf(Cmp(x))), Leaf(Out(y))), Leaf(I)), input,
        if |input| > 0 && input[0] == x then [y] else [])
  {
    var e := App(App(App(Leaf(In), Leaf(Cmp(x))), Leaf(Out(y))), Leaf(I));
    hide Writes;
    Parts(R.Boot(e, input), 7, 3, 9, 0);
    var s1 := R.Run(R.Boot(e, input), 7);
    assert s1 == R.State(R.Call(R.Fn(In), R.Fn(Cmp(x)), R.Arg(Leaf(Out(y)), R.Arg(Leaf(I), R.Stop))), Start(input));
    ComparesOn(x, y, input);
    NoNulAll();
    EndsWriting(e, input, 19);
  }

  lemma ComparesOn(x: byte, y: byte, input: seq<byte>)
    ensures
      var s := R.State(R.Call(R.Fn(In), R.Fn(Cmp(x)), R.Arg(Leaf(Out(y)), R.Arg(Leaf(I), R.Stop))), Start(input));
      var t := R.Run(R.Run(R.Run(s, 3), 9), 0);
      t.config.Exit? && t.io.output == if |input| > 0 && input[0] == x then [y] else []
  {
    var k := R.Arg(Leaf(Out(y)), R.Arg(Leaf(I), R.Stop));
    var s := R.State(R.Call(R.Fn(In), R.Fn(Cmp(x)), k), Start(input));
    var s1 := R.Run(s, 3);
    assert s1.config == R.Ret(R.Fn(if |input| > 0 && input[0] == x then I else V), k) && s1.io.output == [];
    var s2 := R.Run(s1, 9);
    assert R.Run(s2, 0) == s2;
  }

  /** ```s`d`@|i`ci */
  const CAT: Expr :=
    App(App(App(Leaf(S), App(Leaf(D), App(Leaf(In), Leaf(Pipe)))), Leaf(I)), App(Leaf(C), Leaf(I)))

  const READ: R.Value := R.Promise(R.Code(App(Leaf(In), Leaf(Pipe))))

  const BODY: R.Value := R.S2(READ, R.Fn(I))

  const AGAIN: R.Value := R.Resume(R.Fun(BODY, R.Stop))

  /** Where the loop comes round. */
  function Round(io: Io): R.State {
    R.State(R.Call(BODY, AGAIN, R.Stop), io)
  }

  lemma FirstRound(input: seq<byte>)
    ensures R.Run(R.Boot(CAT, input), 23) == Round(Io(input, 0, None, []))
  {
    Parts(R.Boot(CAT, input), 8, 8, 7, 0);
    var s1 := R.Run(R.Boot(CAT, input), 8);
    var s2 := R.Run(s1, 8);
    var s3 := R.Run(s2, 7);
    assert s3 == Round(Io(input, 0, None, [])) && R.Run(s3, 0) == s3;
  }

  lemma OneRound(io: Io)
    ensures io.pos < |io.input| ==>
      var b := io.input[io.pos];
      R.Run(Round(io), 17) == Round(Io(io.input, io.pos + 1, Some(b), io.output + [b]))
    ensures io.pos >= |io.input| ==>
      R.Run(Round(io), 17) == R.State(R.Exit(R.Fn(V)), Io(io.input, io.pos, None, io.output))
  {
    var wait := R.Force(AGAIN, R.Share(R.Fn(I), AGAIN, R.Stop));
    Parts(Round(io), 7, 3, 7, 0);
    var s1 := R.Run(Round(io), 7);
    assert s1 == R.State(R.Call(R.Fn(In), R.Fn(Pipe), wait), io);
    var s2 := R.Run(s1, 3);
    if io.pos < |io.input| {
      var b := io.input[io.pos];
      assert s2 == R.State(R.Ret(R.Fn(Out(b)), wait), Io(io.input, io.pos + 1, Some(b), io.output));
      assert R.Run(s2, 7) == Round(Io(io.input, io.pos + 1, Some(b), io.output + [b]));
    } else {
      assert s2 == R.State(R.Ret(R.Fn(V), wait), Io(io.input, io.pos, None, io.output));
      assert R.Run(s2, 7) == R.State(R.Exit(R.Fn(V)), Io(io.input, io.pos, None, io.output));
    }
  }

  lemma {:induction false} Rounds(io: Io) returns (n: nat)
    requires io.pos <= |io.input| && io.output == io.input[..io.pos]
    ensures R.Run(Round(io), n) == R.State(R.Exit(R.Fn(V)), Io(io.input, |io.input|, None, io.input))
    decreases |io.input| - io.pos
  {
    OneRound(io);
    n := 17;
    if io.pos < |io.input| {
      var b := io.input[io.pos];
      var next := Io(io.input, io.pos + 1, Some(b), io.output + [b]);
      assert next.output == io.input[..io.pos + 1];
      n := Rounds(next);
      R.RunAdd(Round(io), 17, n);
      n := 17 + n;
    } else {
      assert io.output == io.input;
    }
  }

  /** This program copies its input, whatever it is, and ends. */
  lemma CatCopies(input: seq<byte>)
    ensures Writes(CAT, input, input)
  {
    hide R.Run, R.Step, Writes;
    FirstRound(input);
    var n := Rounds(Io(input, 0, None, []));
    R.RunAdd(R.Boot(CAT, input), 23, n);
    assert RefAt(CAT, input, 23 + n) == R.Run(R.Boot(CAT, input), 23 + n);
    NoNulAll();
    EndsWriting(CAT, input, 23 + n);
  }
}
