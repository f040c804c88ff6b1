/** Every VM state reached by compiled code stands for a state of the reference machine, and each
    VM instruction is matched by some number of reference steps. */
module Simulation {
  import opened Syntax
  import opened Compile
  import R = Reference
  import M = Machine

  /** The image starts with the shared routine. */
  ghost predicate Based(im: M.Image) {
    |im.text| >= M.SUBST_LEN && im.text[..M.SUBST_LEN] == M.SUBST
  }

  predicate LaAt(im: M.Image, pc: nat) {
    pc < |im.text| && im.text[pc] == M.La
  }

  predicate ApplyAt(im: M.Image, pc: nat, first: Option<Prim>, second: Option<Prim>) {
    pc < |im.text| && im.text[pc] == M.Apply(first, second)
  }

  /** A value of the VM stands for a value of the language. No marker stands for anything. */
  ghost predicate RelV(im: M.Image, opt: bool, v: R.Value, w: M.Value)
    decreases v, 0
  {
    match v
    case Fn(p) => w == M.Fn(p)
    case K1(x) => w.K1? && RelV(im, opt, x, w.x)
    case S1(x) => w.S1? && RelV(im, opt, x, w.x)
    case S2(x, y) => w.S2? && RelV(im, opt, x, w.x) && RelV(im, opt, y, w.y)
    case Resume(k) => w.C1? && RelK(im, opt, k, w.stack, w.ins + 1)
    case Promise(Ready(x)) => w.D1c? && RelV(im, opt, x, w.x)
    case Promise(Later(f, a)) => w.D1s? && RelV(im, opt, f, w.y) && RelV(im, opt, a, w.z)
    case Promise(Code(e)) =>
      if e.Leaf? then w == M.D1c(M.Fn(e.p))
      else w.D1d? && Placed(im, opt, e, w.addr) && LaAt(im, w.addr + Len(opt, e))
  }

  /** With a result in the accumulator, the instructions from `pc` on and the stack do what `k` says. */
  ghost predicate RelK(im: M.Image, opt: bool, k: R.Kont, st: M.Stack, pc: nat)
    decreases k, st
  {
    if st.Slot? && st.top.J? && LaAt(im, pc) then
      RelK(im, opt, k, st.below, st.top.ins + 1)
    else
      match k
      case Stop => st.Bottom? && ApplyAt(im, pc, Some(E), None)
      case Arg(e, k') =>
        if e.Leaf? then
          ApplyAt(im, pc, None, Some(e.p)) && RelK(im, opt, k', st, pc + 1)
        else
          var q := pc + 1 + Len(opt, e);
          && pc < |im.text|
          && im.text[pc].Sa? && im.text[pc].off + M.SUBST_LEN == q + 1
          && Placed(im, opt, e, pc + 1)
          && LaAt(im, q)
          && RelK(im, opt, k', st, q + 1)
      case Fun(f, k') =>
        || (&& LaAt(im, pc) && (pc == 3 || pc >= M.SUBST_LEN)
            && st.Slot? && RelV(im, opt, f, st.top) && RelK(im, opt, k', st.below, pc + 1))
        || (&& f.Fn? && ApplyAt(im, pc, Some(f.p), None)
            && RelK(im, opt, k', st, pc + 1))
      case Force(w, k') =>
        && LaAt(im, pc)
        && st.Slot? && st.top.F? && st.below.Slot?
        && RelV(im, opt, w, st.below.top)
        && RelK(im, opt, k', st.below.below, st.top.ins + 1)
      case Share(y, z, k') =>
        && pc == 1
        && st.Slot? && st.below.Slot?
        && RelV(im, opt, y, st.top) && RelV(im, opt, z, st.below.top)
        && RelK(im, opt, k', st.below.below, 4)
  }

  /** What the accumulator holds outside of a string being printed. */
  predicate Plain(v: M.Value) {
    v.Empty? || M.Pure(v)
  }

  /** A reference state and a VM state that stand at the same point of the same run. */
  ghost predicate Rel(im: M.Image, opt: bool, s: R.State, m: M.State) {
    && s.io == m.io
    && match s.config
       case Exit(v) => m.Halted? && RelV(im, opt, v, m.result)
       case Ret(v, k) => m.Running? && RelV(im, opt, v, m.acc) && RelK(im, opt, k, m.stack, m.ins)
       case Call(f, a, k) =>
         && m.Running? && (m.ins == 0 || m.ins == 2 || m.ins == 3)
         && m.stack.Slot? && RelV(im, opt, f, m.stack.top) && RelV(im, opt, a, m.acc)
         && RelK(im, opt, k, m.stack.below, m.ins + 1)
       case Eval(e, k) => m.Running? && RelEval(im, opt, e, k, m)
  }

  /** About to run the code of `e`; in a folded chain, possibly with the string already loaded. */
  ghost predicate RelEval(im: M.Image, opt: bool, e: Expr, k: R.Kont, m: M.State)
    requires m.Running?
  {
    if e.Leaf? then
      k == R.Stop && m.stack.Bottom? && Plain(m.acc) && ApplyAt(im, m.ins, Some(E), Some(e.p))
    else
      || (Plain(m.acc) && Placed(im, opt, e, m.ins) && RelK(im, opt, k, m.stack, m.ins + Len(opt, e)))
      || (&& Folds(opt, e) && m.ins > 0
          && Placed(im, opt, e, m.ins - 1) && m.acc == M.P(im.text[m.ins - 1].off)
          && RelK(im, opt, k, m.stack, m.ins + 1))
  }

  /** Where a return or force marker is on top, it does not matter which LA pops it: a tail
      call may end at index 2 instead of 4. */
  lemma MarkerAnywhere(im: M.Image, opt: bool, k: R.Kont, st: M.Stack)
    requires Based(im) && RelK(im, opt, k, st, 4)
    ensures RelK(im, opt, k, st, 2)
  {
    assert im.text[2] == M.SUBST[2] && im.text[4] == M.SUBST[4];
  }

  /** How many reference steps an application takes up to where the VM shows its effect. */
  function PerformStride(f: R.Value): (n: nat)
    ensures n >= 1
  {
    match f
    case Promise(Ready(_)) => 2
    case Promise(Code(Leaf(_))) => 3
    case _ => 1
  }

  function ChainStride(e: Expr): (n: nat)
    requires Chain(e)
    ensures n >= 1
  {
    5 + if e.r.App? then ChainStride(e.r) else 1
  }

  /** The way down to the first instruction of an application's code. */
  function BeginStride(opt: bool, e: Expr): (n: nat)
    requires e.App? && !Folds(opt, e)
    ensures n >= 1
  {
    if e.l.App? then 1 + if Folds(opt, e.l) then 0 else BeginStride(opt, e.l)
    else if e.l.p == D then 3
    else if e.r.App? then 3 + if Folds(opt, e.r) then 0 else BeginStride(opt, e.r)
    else 6
  }

  /** How many reference steps the VM's next visible step takes, from any state that stands for `s`. */
  function Stride(opt: bool, s: R.State): nat {
    match s.config
    case Exit(_) => 0
    case Eval(e, _) => if e.Leaf? then 2 else if Folds(opt, e) then ChainStride(e) else BeginStride(opt, e)
    case Call(f, _, _) => PerformStride(f)
    case Ret(v, Arg(Leaf(_), _)) => if v == R.Fn(D) then 1 else 3 + PerformStride(v)
    case Ret(_, Fun(f, _)) => 1 + PerformStride(f)
    case Ret(_, _) => 1
  }

  /** A chain of printing functions prints its characters, then returns what it ends in. */
  lemma {:induction false} ChainRun(e: Expr, k: R.Kont, io: Io) returns (n: nat)
    requires Chain(e)
    ensures n == ChainStride(e)
    ensures R.Run(R.State(R.Eval(e, k), io), n) == R.State(R.Ret(R.Fn(ChainEnd(e)), k), io.Puts(ChainOut(e)))
  {
    var s := R.State(R.Eval(e, k), io);
    var f := R.Fn(e.l.p);
    assert R.Run(s, 3) == R.State(R.Eval(e.r, R.Fun(f, k)), io);
    var i := 1;
    var out := [];
    if e.r.App? {
      i := ChainRun(e.r, R.Fun(f, k), io);
      out := ChainOut(e.r);
    } else {
      assert io.Puts([]) == io;
    }
    var t := R.State(R.Ret(R.Fn(ChainEnd(e)), R.Fun(f, k)), io.Puts(out));
    assert R.Run(R.Run(s, 3), i) == t;
    assert R.Run(t, 2) == R.State(R.Ret(R.Fn(ChainEnd(e)), k), io.Puts(out).Put(e.l.p.ch));
    R.RunAdd(s, 3, i);
    R.RunAdd(s, 3 + i, 2);
    n := 3 + i + 2;
    assert io.Puts(out).Put(e.l.p.ch) == io.Puts(ChainOut(e)) by {
      assert io.output + out + [e.l.p.ch] == io.output + (out + [e.l.p.ch]);
    }
  }

  /** Values that answer at once. */
  lemma PerformAnswer(im: M.Image, opt: bool, f: R.Value, a: R.Value, k: R.Kont,
                      acc: M.Value, f': M.Value, a': M.Value, st: M.Stack, pc: nat, io: Io)
    requires RelV(im, opt, f, f') && RelV(im, opt, a, a')
    requires RelK(im, opt, k, st, pc + 1)
    requires !f.Promise? && !f.S2? && (f.Fn? ==> f.p in {K, S, I, V, D} || f.p.Out?)
    ensures Rel(im, opt, R.Perform(f, a, k, io), M.DoApply(im, acc, f', a', st, pc, io))
  {
    if f.Fn? {
      match f.p
      case K => case S => case I => case V => case D => case Out(c) =>
    }
  }

  /** The machine at index 3 with `g` on top of a marker that leads back behind `pc`. */
  lemma CallBack(im: M.Image, opt: bool, g: R.Value, b: R.Value, k: R.Kont,
                 g': M.Value, b': M.Value, st: M.Stack, pc: nat, io: Io)
    requires Based(im)
    requires RelV(im, opt, g, g') && RelV(im, opt, b, b')
    requires RelK(im, opt, k, st, pc + 1)
    ensures Rel(im, opt, R.State(R.Call(g, b, k), io), M.Running(b', M.Slot(g', M.Slot(M.J(pc), st)), 3, io))
  {
    assert im.text[4] == M.SUBST[4];
  }

  /** ```sxyz`` starts by applying `x` to `z`, with or without a return marker underneath. */
  lemma ShareCall(im: M.Image, opt: bool, x: R.Value, y: R.Value, a: R.Value, k: R.Kont,
                  x': M.Value, y': M.Value, a': M.Value, st: M.Stack, pc: nat, base: M.Stack, io: Io)
    requires Based(im)
    requires RelV(im, opt, x, x') && RelV(im, opt, y, y') && RelV(im, opt, a, a')
    requires RelK(im, opt, k, st, pc + 1)
    requires base == M.Slot(M.J(pc), st) || (base == st && pc == 3)
    ensures Rel(im, opt, R.State(R.Call(x, a, R.Share(y, a, k)), io),
                M.Running(a', M.Slot(x', M.Slot(y', M.Slot(a', base))), 0, io))
  {
    hide RelV;
    assert im.text[1] == M.SUBST[1] && im.text[4] == M.SUBST[4];
    assert RelK(im, opt, k, base, 4);
  }

  /** A force marker over the waiting argument, at any LA. */
  lemma ForceKont(im: M.Image, opt: bool, a: R.Value, k: R.Kont, a': M.Value, st: M.Stack, pc: nat, la: nat)
    requires LaAt(im, la) && RelV(im, opt, a, a') && RelK(im, opt, k, st, pc + 1)
    ensures RelK(im, opt, R.Force(a, k), M.Slot(M.F(pc), M.Slot(a', st)), la)
  {
  }

  /** The three forms of promise force alike: whatever was delayed is computed now, with the
      argument waiting for its value. */
  lemma PerformForce(im: M.Image, opt: bool, d: R.Delayed, a: R.Value, k: R.Kont,
                     acc: M.Value, f': M.Value, a': M.Value, st: M.Stack, pc: nat, io: Io) returns (n: nat)
    requires Based(im) && Plain(acc)
    requires RelV(im, opt, R.Promise(d), f') && RelV(im, opt, a, a')
    requires RelK(im, opt, k, st, pc + 1)
    ensures n == PerformStride(R.Promise(d))
    ensures Rel(im, opt, R.Run(R.State(R.Call(R.Promise(d), a, k), io), n),
                M.DoApply(im, acc, f', a', st, pc, io))
  {
    hide RelK;
    var s := R.State(R.Call(R.Promise(d), a, k), io);
    match d {
      case Ready(x) =>
        n := 2;
        assert R.Run(s, 2) == R.State(R.Call(x, a, k), io);
        CallBack(im, opt, x, a, k, f'.x, a', st, pc, io);
      case Later(y, z) =>
        n := 1;
        assert R.Run(s, 1) == R.State(R.Call(y, z, R.Force(a, k)), io);
        assert im.text[4] == M.SUBST[4];
        ForceKont(im, opt, a, k, a', st, pc, 4);
      case Code(e) =>
        if e.Leaf? {
          n := 3;
          assert R.Run(s, 3) == R.State(R.Call(R.Fn(e.p), a, k), io);
          CallBack(im, opt, R.Fn(e.p), a, k, f'.x, a', st, pc, io);
        } else {
          n := 1;
          assert R.Run(s, 1) == R.State(R.Eval(e, R.Force(a, k)), io);
          ForceKont(im, opt, a, k, a', st, pc, f'.addr + Len(opt, e));
        }
    }
  }

  /** `do_apply` carries out one application of the reference machine. */
  lemma PerformSim(im: M.Image, opt: bool, f: R.Value, a: R.Value, k: R.Kont,
                   acc: M.Value, f': M.Value, a': M.Value, st: M.Stack, pc: nat, io: Io) returns (n: nat)
    requires Based(im) && Plain(acc)
    requires RelV(im, opt, f, f') && RelV(im, opt, a, a')
    requires RelK(im, opt, k, st, pc + 1)
    ensures n == PerformStride(f)
    ensures Rel(im, opt, R.Run(R.State(R.Call(f, a, k), io), n), M.DoApply(im, acc, f', a', st, pc, io))
  {
    hide RelK;
    n := 1;
    var s := R.Perform(f, a, k, io);
    assert R.Run(R.State(R.Call(f, a, k), io), 1) == s;
    if f.Promise? {
      n := PerformForce(im, opt, f.d, a, k, acc, f', a', st, pc, io);
    } else if f.S2? {
      var base := if im.tce && pc == 3 then st else M.Slot(M.J(pc), st);
      ShareCall(im, opt, f.x, f.y, a, k, f'.x, f'.y, a', st, pc, base, io);
    } else if s.config.Ret? {
      PerformAnswer(im, opt, f, a, k, acc, f', a', st, pc, io);
    } else if s.config.Call? {
      if f == R.Fn(C) {
        CallBack(im, opt, a, R.Resume(k), k, a', M.C1(st, pc), st, pc, io);
      } else {
        CallBack(im, opt, a, s.config.a, k, a', M.Fn(s.config.a.p), st, pc, s.io);
      }
    }
  }

  /** No marker hides in what stands for a value. */
  lemma {:induction false} RelPure(im: M.Image, opt: bool, v: R.Value, w: M.Value)
    requires RelV(im, opt, v, w)
    ensures M.Pure(w)
    decreases v, 0
  {
    match v {
      case Fn(p) =>
      case K1(x) => RelPure(im, opt, x, w.x);
      case S1(x) => RelPure(im, opt, x, w.x);
      case S2(x, y) => RelPure(im, opt, x, w.x); RelPure(im, opt, y, w.y);
      case Resume(k) => RelShaped(im, opt, k, w.stack, w.ins + 1);
      case Promise(Ready(x)) => RelPure(im, opt, x, w.x);
      case Promise(Later(f, a)) => RelPure(im, opt, f, w.y); RelPure(im, opt, a, w.z);
      case Promise(Code(e)) =>
    }
  }

  /** The stack under a continuation holds values and markers in the order the routine expects. */
  lemma {:induction false} RelShaped(im: M.Image, opt: bool, k: R.Kont, st: M.Stack, pc: nat)
    requires RelK(im, opt, k, st, pc)
    ensures M.Shaped(st) && pc < |im.text|
    decreases k, st
  {
    if st.Slot? && st.top.J? && LaAt(im, pc) {
      RelShaped(im, opt, k, st.below, st.top.ins + 1);
    } else {
      match k {
        case Stop =>
        case Arg(e, k') =>
          RelShaped(im, opt, k', st, if e.Leaf? then pc + 1 else pc + 1 + Len(opt, e) + 1);
        case Fun(f, k') =>
          if LaAt(im, pc) {
            RelPure(im, opt, f, st.top);
            RelShaped(im, opt, k', st.below, pc + 1);
          } else {
            RelShaped(im, opt, k', st, pc + 1);
          }
        case Force(w, k') =>
          RelPure(im, opt, w, st.below.top);
          RelShaped(im, opt, k', st.below.below, st.top.ins + 1);
        case Share(y, z, k') =>
          RelPure(im, opt, y, st.top);
          RelPure(im, opt, z, st.below.top);
          RelShaped(im, opt, k', st.below.below, 4);
      }
    }
  }

  lemma NoMarker(im: M.Image, opt: bool, v: R.Value, w: M.Value)
    requires RelV(im, opt, v, w)
    ensures Plain(w) && w != M.Empty
    ensures v == R.Fn(D) <==> w == M.Fn(D)
  {
    RelPure(im, opt, v, w);
  }

  /** Behind the code of the function of `e` stands the code that evaluates its argument. */
  lemma ArgKont(im: M.Image, opt: bool, e: Expr, k: R.Kont, st: M.Stack, p: nat)
    requires e.App? && e.l.App? && !Folds(opt, e) && Placed(im, opt, e, p)
    requires RelK(im, opt, k, st, p + Len(opt, e))
    ensures Placed(im, opt, e.l, p) && RelK(im, opt, R.Arg(e.r, k), st, p + Len(opt, e.l))
  {
    if e.r.Leaf? {
      assert Len(opt, e) == Len(opt, e.l) + 1;
    }
  }

  /** Where the function is a primitive, behind the code of the argument stands its application. */
  lemma FunKont(im: M.Image, opt: bool, e: Expr, k: R.Kont, st: M.Stack, p: nat)
    requires e.App? && e.l.Leaf? && e.l.p != D && e.r.App? && !Folds(opt, e) && Placed(im, opt, e, p)
    requires RelK(im, opt, k, st, p + Len(opt, e))
    ensures Placed(im, opt, e.r, p) && RelK(im, opt, R.Fun(R.Fn(e.l.p), k), st, p + Len(opt, e.r))
  {
    assert Len(opt, e) == Len(opt, e.r) + 1;
    assert ApplyAt(im, p + Len(opt, e.r), Some(e.l.p), None);
  }

  /** `d` delays its argument, by DEL if that is an application. */
  lemma DelayStep(im: M.Image, opt: bool, e: Expr, k: R.Kont, acc: M.Value, st: M.Stack, p: nat, io: Io)
    requires e.App? && e.l == Leaf(D) && Placed(im, opt, e, p)
    requires RelK(im, opt, k, st, p + Len(opt, e))
    ensures Rel(im, opt, R.State(R.Ret(R.Promise(R.Code(e.r)), k), io), M.Step(im, M.Running(acc, st, p, io)))
  {
    hide RelK;
    assert Len(opt, e.l) == 0;
    var m := M.Step(im, M.Running(acc, st, p, io));
    assert RelV(im, opt, R.Promise(R.Code(e.r)), m.acc);
  }

  /** A folded chain starts by loading its string. */
  lemma LoadStep(im: M.Image, opt: bool, e: Expr, k: R.Kont, acc: M.Value, st: M.Stack, p: nat, io: Io)
    requires Folds(opt, e) && Placed(im, opt, e, p)
    requires RelK(im, opt, k, st, p + Len(opt, e))
    ensures Rel(im, opt, R.State(R.Eval(e, k), io), M.Step(im, M.Running(acc, st, p, io))) && im.text[p].Lc?
  {
  }

  /** A primitive applied to a primitive. */
  lemma LeavesStep(im: M.Image, opt: bool, e: Expr, k: R.Kont, acc: M.Value, st: M.Stack, p: nat, io: Io)
      returns (n: nat)
    requires Based(im) && Plain(acc)
    requires e.App? && e.l.Leaf? && e.r.Leaf? && e.l.p != D && !Folds(opt, e) && Placed(im, opt, e, p)
    requires RelK(im, opt, k, st, p + Len(opt, e))
    ensures n == BeginStride(opt, e)
    ensures Rel(im, opt, R.Run(R.State(R.Eval(e, k), io), n), M.Step(im, M.Running(acc, st, p, io)))
  {
    hide RelK;
    var s := R.State(R.Eval(e, k), io);
    assert Len(opt, e) == 1;
    var f, a := R.Fn(e.l.p), R.Fn(e.r.p);
    n := PerformSim(im, opt, f, a, k, acc, M.Fn(e.l.p), M.Fn(e.r.p), st, p, io);
    assert R.Run(s, 5) == R.State(R.Call(f, a, k), io);
    R.RunAdd(s, 5, n);
    n := 5 + n;
  }

  /** The first instruction of an application's code: the reference machine descends to the place
      where that instruction acts, and both act. Loading a folded string takes no reference step. */
  lemma {:induction false} BeginSim(im: M.Image, opt: bool, e: Expr, k: R.Kont,
                                    acc: M.Value, st: M.Stack, p: nat, io: Io) returns (n: nat)
    requires Based(im) && Plain(acc)
    requires e.App? && Placed(im, opt, e, p)
    requires RelK(im, opt, k, st, p + Len(opt, e))
    ensures Rel(im, opt, R.Run(R.State(R.Eval(e, k), io), n), M.Step(im, M.Running(acc, st, p, io)))
    ensures n == if Folds(opt, e) then 0 else BeginStride(opt, e)
    ensures n == 0 ==> im.text[p].Lc?
    decreases e
  {
    hide RelK, Rel, Placed, M.Step;
    var s := R.State(R.Eval(e, k), io);
    if Folds(opt, e) {
      LoadStep(im, opt, e, k, acc, st, p, io);
      n := 0;
    } else if e.l.App? {
      ArgKont(im, opt, e, k, st, p);
      n := BeginSim(im, opt, e.l, R.Arg(e.r, k), acc, st, p, io);
      assert R.Run(s, 1) == R.State(R.Eval(e.l, R.Arg(e.r, k)), io);
      R.RunAdd(s, 1, n);
      n := 1 + n;
    } else if e.l.p == D {
      DelayStep(im, opt, e, k, acc, st, p, io);
      assert R.Run(s, 3) == R.State(R.Ret(R.Promise(R.Code(e.r)), k), io);
      n := 3;
    } else if e.r.App? {
      FunKont(im, opt, e, k, st, p);
      n := BeginSim(im, opt, e.r, R.Fun(R.Fn(e.l.p), k), acc, st, p, io);
      assert R.Run(s, 3) == R.State(R.Eval(e.r, R.Fun(R.Fn(e.l.p), k)), io);
      R.RunAdd(s, 3, n);
      n := 3 + n;
    } else {
      n := LeavesStep(im, opt, e, k, acc, st, p, io);
    }
  }

  /** The instruction after a string is loaded prints it and yields the end of the chain. */
  lemma PrintSim(im: M.Image, opt: bool, e: Expr, k: R.Kont, m: M.State) returns (n: nat)
    requires Based(im) && m.Running? && m.ins > 0
    requires Folds(opt, e) && Placed(im, opt, e, m.ins - 1) && m.acc == M.P(im.text[m.ins - 1].off)
    requires RelK(im, opt, k, m.stack, m.ins + 1)
    ensures n == ChainStride(e)
    ensures Rel(im, opt, R.Run(R.State(R.Eval(e, k), m.io), n), M.Step(im, m))
  {
    n := ChainRun(e, k, m.io);
  }

  /** The argument is a primitive: the next instruction applies the accumulator to it. */
  lemma LeafArgSim(im: M.Image, opt: bool, v: R.Value, p: Prim, k: R.Kont, m: M.State) returns (n: nat)
    requires Based(im) && m.Running? && RelV(im, opt, v, m.acc)
    requires ApplyAt(im, m.ins, None, Some(p)) && RelK(im, opt, k, m.stack, m.ins + 1)
    ensures n == if v == R.Fn(D) then 1 else 3 + PerformStride(v)
    ensures Rel(im, opt, R.Run(R.State(R.Ret(v, R.Arg(Leaf(p), k)), m.io), n), M.Step(im, m))
  {
    hide RelK;
    NoMarker(im, opt, v, m.acc);
    var s := R.State(R.Ret(v, R.Arg(Leaf(p), k)), m.io);
    if v == R.Fn(D) {
      n := 1;
      assert R.Run(s, 1) == R.State(R.Ret(R.Promise(R.Code(Leaf(p))), k), m.io);
    } else {
      n := PerformSim(im, opt, v, R.Fn(p), k, m.acc, m.acc, M.Fn(p), m.stack, m.ins, m.io);
      assert R.Run(s, 3) == R.State(R.Call(v, R.Fn(p), k), m.io);
      R.RunAdd(s, 3, n);
      n := 3 + n;
    }
  }

  /** SA: an argument's code starts, or the function turns out to be `d` and the argument is delayed. */
  lemma CodeArgSim(im: M.Image, opt: bool, v: R.Value, e: Expr, k: R.Kont, m: M.State)
    requires Based(im) && m.Running? && RelV(im, opt, v, m.acc)
    requires e.App? && RelK(im, opt, R.Arg(e, k), m.stack, m.ins) && !Returning(im, m)
    ensures Rel(im, opt, R.Step(R.State(R.Ret(v, R.Arg(e, k)), m.io)), M.Step(im, m))
  {
    hide RelV, RelK, Len, Placed, Rel, M.Step, R.Step;
    NoMarker(im, opt, v, m.acc);
    ArgWaits(im, opt, e, k, m.stack, m.ins);
    ArgSteps(im, v, e, k, m);
    if v == R.Fn(D) {
      CodeDelayed(im, opt, e, m.ins);
      RetRelated(im, opt, R.Promise(R.Code(e)), k, M.Step(im, m));
    } else {
      CodeWaits(im, opt, v, k, m.acc, m.stack, m.ins + 1 + Len(opt, e));
      EvalRelated(im, opt, e, R.Fun(v, k), M.Step(im, m));
    }
  }

  /** What both machines do where the code of an argument begins. */
  lemma ArgSteps(im: M.Image, v: R.Value, e: Expr, k: R.Kont, m: M.State)
    requires m.Running? && m.ins < |im.text| && im.text[m.ins].Sa?
    ensures
      M.Step(im, m)
      == if m.acc == M.Fn(D) then M.Running(M.D1d(m.ins + 1), m.stack, M.SUBST_LEN + im.text[m.ins].off, m.io)
         else M.Running(m.acc, M.Slot(m.acc, m.stack), m.ins + 1, m.io)
    ensures
      R.Step(R.State(R.Ret(v, R.Arg(e, k)), m.io))
      == R.State(if v == R.Fn(D) then R.Ret(R.Promise(R.Code(e)), k) else R.Eval(e, R.Fun(v, k)), m.io)
  {
  }

  lemma RetRelated(im: M.Image, opt: bool, v: R.Value, k: R.Kont, m: M.State)
    requires m.Running? && RelV(im, opt, v, m.acc) && RelK(im, opt, k, m.stack, m.ins)
    ensures Rel(im, opt, R.State(R.Ret(v, k), m.io), m)
  {
    hide RelV, RelK;
  }

  lemma EvalRelated(im: M.Image, opt: bool, e: Expr, k: R.Kont, m: M.State)
    requires m.Running? && e.App? && Plain(m.acc) && Placed(im, opt, e, m.ins)
    requires RelK(im, opt, k, m.stack, m.ins + Len(opt, e))
    ensures Rel(im, opt, R.State(R.Eval(e, k), m.io), m)
  {
    hide RelV, RelK, Placed, Len;
  }

  lemma ArgWaits(im: M.Image, opt: bool, e: Expr, k: R.Kont, st: M.Stack, pc: nat)
    requires RelK(im, opt, R.Arg(e, k), st, pc) && e.App? && !(st.Slot? && st.top.J? && LaAt(im, pc))
    ensures
      var q := pc + 1 + Len(opt, e);
      && pc < |im.text| && im.text[pc].Sa? && im.text[pc].off + M.SUBST_LEN == q + 1
      && Placed(im, opt, e, pc + 1) && LaAt(im, q) && q >= M.SUBST_LEN && RelK(im, opt, k, st, q + 1)
  {
    assert Placed(im, opt, e, pc + 1);
  }

  lemma CodeDelayed(im: M.Image, opt: bool, e: Expr, pc: nat)
    requires e.App? && Placed(im, opt, e, pc + 1) && LaAt(im, pc + 1 + Len(opt, e))
    ensures RelV(im, opt, R.Promise(R.Code(e)), M.D1d(pc + 1))
  {
    hide Placed, Len;
  }

  lemma CodeWaits(im: M.Image, opt: bool, v: R.Value, k: R.Kont, acc: M.Value, st: M.Stack, q: nat)
    requires RelV(im, opt, v, acc) && LaAt(im, q) && q >= M.SUBST_LEN && RelK(im, opt, k, st, q + 1) && !acc.J?
    ensures RelK(im, opt, R.Fun(v, k), M.Slot(acc, st), q)
  {
    hide RelV;
  }

  /** LA or an application with a primitive: the function that waited meets its argument. */
  lemma FunSim(im: M.Image, opt: bool, v: R.Value, f: R.Value, k: R.Kont, m: M.State) returns (n: nat)
    requires Based(im) && m.Running? && RelV(im, opt, v, m.acc)
    requires RelK(im, opt, R.Fun(f, k), m.stack, m.ins) && !Returning(im, m)
    ensures n == 1 + PerformStride(f)
    ensures Rel(im, opt, R.Run(R.State(R.Ret(v, R.Fun(f, k)), m.io), n), M.Step(im, m))
  {
    NoMarker(im, opt, v, m.acc);
    var f', st := if LaAt(im, m.ins) then m.stack.top else M.Fn(f.p),
                  if LaAt(im, m.ins) then m.stack.below else m.stack;
    assert RelV(im, opt, f, f') && RelK(im, opt, k, st, m.ins + 1);
    hide RelK, RelV;
    n := PerformSim(im, opt, f, v, k, m.acc, f', m.acc, st, m.ins, m.io);
    var s := R.State(R.Ret(v, R.Fun(f, k)), m.io);
    assert R.Run(s, 1) == R.State(R.Call(f, v, k), m.io);
    R.RunAdd(s, 1, n);
    n := 1 + n;
  }

  /** LA with a force marker on top: a promise's value meets the argument that waited for it. */
  lemma ForceSim(im: M.Image, opt: bool, v: R.Value, w: R.Value, k: R.Kont, m: M.State)
    requires Based(im) && m.Running? && RelV(im, opt, v, m.acc)
    requires RelK(im, opt, R.Force(w, k), m.stack, m.ins) && !Returning(im, m)
    ensures Rel(im, opt, R.State(R.Call(v, w, k), m.io), M.Step(im, m))
  {
    var rest := m.stack.below.below;
    assert RelK(im, opt, k, rest, m.stack.top.ins + 1) && RelV(im, opt, w, m.stack.below.top);
    hide RelK, RelV;
    CallBack(im, opt, v, w, k, m.acc, m.stack.below.top, rest, m.stack.top.ins, m.io);
  }

  /** XCH: go on with the right half of ``xz`yz, or delay it if the left half is `d`. */
  lemma ShareSim(im: M.Image, opt: bool, v: R.Value, y: R.Value, z: R.Value, k: R.Kont, m: M.State)
    requires Based(im) && m.Running? && RelV(im, opt, v, m.acc)
    requires RelK(im, opt, R.Share(y, z, k), m.stack, m.ins) && !Returning(im, m)
    ensures Rel(im, opt, R.Step(R.State(R.Ret(v, R.Share(y, z, k)), m.io)), M.Step(im, m))
  {
    NoMarker(im, opt, v, m.acc);
    assert im.text[1] == M.SUBST[1] && im.text[3] == M.SUBST[3];
    var rest := m.stack.below.below;
    if v == R.Fn(D) {
      MarkerAnywhere(im, opt, k, rest);
    } else {
      assert RelK(im, opt, R.Fun(v, k), M.Slot(m.acc, rest), 3);
    }
  }

  /** LA is about to pop a return marker. */
  predicate Returning(im: M.Image, m: M.State)
    requires m.Running?
  {
    m.stack.Slot? && m.stack.top.J? && LaAt(im, m.ins)
  }

  /** A return marker leads back to where the same continuation waits. */
  lemma MarkerSim(im: M.Image, opt: bool, v: R.Value, k: R.Kont, m: M.State)
    requires m.Running? && RelV(im, opt, v, m.acc) && RelK(im, opt, k, m.stack, m.ins) && Returning(im, m)
    ensures Rel(im, opt, R.State(R.Ret(v, k), m.io), M.Step(im, m))
    ensures M.Step(im, m) == M.Running(m.acc, m.stack.below, m.stack.top.ins + 1, m.io)
  {
    hide RelV;
  }

  /** The program's value meets the guard `e` that every program is wrapped in. */
  lemma StopSim(im: M.Image, opt: bool, v: R.Value, m: M.State)
    requires m.Running? && RelV(im, opt, v, m.acc) && RelK(im, opt, R.Stop, m.stack, m.ins) && !Returning(im, m)
    ensures Rel(im, opt, R.State(R.Exit(v), m.io), M.Step(im, m))
  {
    NoMarker(im, opt, v, m.acc);
    hide RelV;
  }

  /** A result is handed to what waits for it. Popping a return marker takes no reference step. */
  lemma ReturnSim(im: M.Image, opt: bool, v: R.Value, k: R.Kont, m: M.State) returns (n: nat)
    requires Based(im) && m.Running? && RelV(im, opt, v, m.acc) && RelK(im, opt, k, m.stack, m.ins)
    ensures Rel(im, opt, R.Run(R.State(R.Ret(v, k), m.io), n), M.Step(im, m))
    ensures n == 0 || n == Stride(opt, R.State(R.Ret(v, k), m.io))
    ensures n == 0 ==> m.stack.Slot? && M.Step(im, m) == M.Running(m.acc, m.stack.below, M.Step(im, m).ins, m.io)
  {
    var s := R.State(R.Ret(v, k), m.io);
    n := 1;
    assert R.Run(s, 1) == R.Step(s);
    if Returning(im, m) {
      MarkerSim(im, opt, v, k, m);
      n := 0;
    } else {
      hide RelV, Rel, M.Step;
      match k {
        case Stop =>
          StopSim(im, opt, v, m);
        case Arg(e, k') =>
          if e.Leaf? {
            n := LeafArgSim(im, opt, v, e.p, k', m);
          } else {
            CodeArgSim(im, opt, v, e, k', m);
          }
        case Fun(f, k') =>
          n := FunSim(im, opt, v, f, k', m);
        case Force(w, k') =>
          ForceSim(im, opt, v, w, k', m);
        case Share(y, z, k') =>
          ShareSim(im, opt, v, y, z, k', m);
      }
    }
  }

  function Height(st: M.Stack): nat {
    if st.Bottom? then 0 else 1 + Height(st.below)
  }

  /** Falls with every VM step the reference machine does not see. */
  function Slack(m: M.State): nat {
    if m.Running? then 2 * Height(m.stack) + (if m.acc.P? then 0 else 1) else 0
  }

  /** LA in the shared routine: the value on top is applied to the accumulator. */
  lemma CallSim(im: M.Image, opt: bool, f: R.Value, a: R.Value, k: R.Kont, m: M.State) returns (n: nat)
    requires Based(im) && m.Running? && Rel(im, opt, R.State(R.Call(f, a, k), m.io), m)
    ensures n == PerformStride(f)
    ensures Rel(im, opt, R.Run(R.State(R.Call(f, a, k), m.io), n), M.Step(im, m))
  {
    hide RelK;
    assert im.text[m.ins] == M.SUBST[m.ins];
    NoMarker(im, opt, a, m.acc);
    n := PerformSim(im, opt, f, a, k, m.acc, m.stack.top, m.acc, m.stack.below, m.ins, m.io);
  }

  /** A program that is one primitive: the guard is applied to it at once. */
  lemma LeafProgramSim(im: M.Image, opt: bool, p: Prim, m: M.State)
    requires m.Running? && ApplyAt(im, m.ins, Some(E), Some(p))
    ensures Rel(im, opt, R.State(R.Exit(R.Fn(p)), m.io), M.Step(im, m))
  {
  }

  lemma LoadString(im: M.Image, m: M.State)
    requires m.Running? && Plain(m.acc) && m.ins < |im.text| && im.text[m.ins].Lc?
    ensures Slack(M.Step(im, m)) < Slack(m)
  {
  }

  /** One VM step is matched by `n` reference steps, and no run of steps with n = 0 is endless. */
  lemma StepSim(im: M.Image, opt: bool, s: R.State, m: M.State) returns (n: nat)
    requires Based(im) && m.Running? && Rel(im, opt, s, m)
    ensures Rel(im, opt, R.Run(s, n), M.Step(im, m))
    ensures n == 0 || n == Stride(opt, s)
    ensures n == 0 ==> Slack(M.Step(im, m)) < Slack(m)
  {
    hide RelK, RelV, M.Step;
    match s.config {
      case Ret(v, k) =>
        NoMarker(im, opt, v, m.acc);
        n := ReturnSim(im, opt, v, k, m);
      case Call(f, a, k) =>
        n := CallSim(im, opt, f, a, k, m);
      case Eval(e, k) =>
        if e.Leaf? {
          n := 2;
          assert R.Run(s, 2) == R.State(R.Exit(R.Fn(e.p)), s.io);
          LeafProgramSim(im, opt, e.p, m);
        } else if Plain(m.acc) {
          n := BeginSim(im, opt, e, k, m.acc, m.stack, m.ins, m.io);
          if n == 0 {
            LoadString(im, m);
          }
        } else {
          n := PrintSim(im, opt, e, k, m);
        }
    }
  }

  /** However far one machine is asked to run, there is a point of the run beyond that where both
      machines stand together. */
  lemma {:induction false} Advance(im: M.Image, opt: bool, s: R.State, m: M.State, least: nat)
      returns (i: nat, j: nat)
    requires Based(im) && Rel(im, opt, s, m)
    ensures i >= least && j >= least
    ensures Rel(im, opt, R.Run(s, i), M.Run(im, m, j))
    decreases least, Slack(m)
  {
    if least == 0 {
      i, j := 0, 0;
    } else if !m.Running? {
      R.ExitStays(s, 0, least);
      M.StopStays(im, m, 0, least);
      i, j := least, least;
    } else {
      var n := StepSim(im, opt, s, m);
      i, j := Advance(im, opt, R.Run(s, n), M.Step(im, m), if n == 0 then least else least - 1);
      R.RunAdd(s, n, i);
      i, j := n + i, 1 + j;
    }
  }

  /** Two images of one program, compiled alike: however far they are asked to run, there is a point
      beyond that where both stand for one and the same reference state. */
  lemma {:induction false} AdvanceBoth(im: M.Image, im': M.Image, opt: bool, s: R.State, m: M.State, m': M.State,
      least: nat) returns (i: nat, j: nat, j': nat)
    requires Based(im) && Based(im') && Rel(im, opt, s, m) && Rel(im', opt, s, m')
    ensures i >= least && j >= least && j' >= least
    ensures Rel(im, opt, R.Run(s, i), M.Run(im, m, j)) && Rel(im', opt, R.Run(s, i), M.Run(im', m', j'))
    decreases least, Slack(m) + Slack(m')
  {
    hide RelV, RelK, M.Step, M.Run, R.Run, Slack, Stride;
    RunEnds(im, m, s);
    RunEnds(im', m', s);
    if least == 0 {
      return 0, 0, 0;
    }
    BothRun(im, im', opt, s, m, m');
    if !m.Running? {
      R.ExitStays(s, 0, least);
      M.StopStays(im, m, 0, least);
      M.StopStays(im', m', 0, least);
      return least, least, least;
    }
    hide Rel;
    var n := StepSim(im, opt, s, m);
    if n == 0 {
      i, j, j' := AdvanceBoth(im, im', opt, s, M.Step(im, m), m', least);
      return i, 1 + j, j';
    }
    var n' := StepSim(im', opt, s, m');
    if n' == 0 {
      i, j, j' := AdvanceBoth(im, im', opt, s, m, M.Step(im', m'), least);
      return i, j, 1 + j';
    }
    i, j, j' := AdvanceBoth(im, im', opt, R.Run(s, n), M.Step(im, m), M.Step(im', m'), least - 1);
    R.RunAdd(s, n, i);
    return n + i, 1 + j, 1 + j';
  }

  lemma RunEnds(im: M.Image, m: M.State, s: R.State)
    ensures M.Run(im, m, 0) == m && R.Run(s, 0) == s
    ensures forall j: nat :: M.Run(im, m, 1 + j) == M.Run(im, M.Step(im, m), j)
  {
    hide M.Step;
  }

  lemma BothRun(im: M.Image, im': M.Image, opt: bool, s: R.State, m: M.State, m': M.State)
    requires Rel(im, opt, s, m) && Rel(im', opt, s, m')
    ensures m.Running? <==> m'.Running?
    ensures !m.Running? ==> s.config.Exit? && m.Halted? && m'.Halted?
  {
    hide RelV, RelK;
  }

  /** Every state the VM passes through stands for a state the reference machine passes through. */
  lemma {:induction false} Follow(im: M.Image, opt: bool, s: R.State, m: M.State, j: nat) returns (i: nat)
    requires Based(im) && Rel(im, opt, s, m)
    ensures Rel(im, opt, R.Run(s, i), M.Run(im, m, j))
    decreases j
  {
    if j == 0 {
      i := 0;
    } else if !m.Running? {
      M.StopStays(im, m, 0, j);
      i := 0;
    } else {
      var n := StepSim(im, opt, s, m);
      i := Follow(im, opt, R.Run(s, n), M.Step(im, m), j - 1);
      R.RunAdd(s, n, i);
      i := n + i;
    }
  }

  lemma SlotShaped(st: M.Stack)
    ensures st.Bottom? ==> M.Shaped(st)
    ensures st.Slot? && M.Pure(st.top) && M.Shaped(st.below) ==> M.Shaped(st)
  {
  }

  lemma EvalSound(im: M.Image, opt: bool, e: Expr, k: R.Kont, m: M.State)
    requires m.Running? && RelEval(im, opt, e, k, m)
    ensures M.Sound(im, m)
  {
    hide RelV, RelK, M.Pure, M.Shaped;
    if e.Leaf? {
      SlotShaped(m.stack);
    } else if Placed(im, opt, e, m.ins) && RelK(im, opt, k, m.stack, m.ins + Len(opt, e)) && Plain(m.acc) {
      RelShaped(im, opt, k, m.stack, m.ins + Len(opt, e));
    } else {
      RelShaped(im, opt, k, m.stack, m.ins + 1);
    }
  }

  /** What stands for a reference state is well shaped. */
  lemma RelSound(im: M.Image, opt: bool, s: R.State, m: M.State)
    requires Based(im) && Rel(im, opt, s, m)
    ensures M.Sound(im, m)
  {
    hide RelV, RelK, M.Pure, M.Shaped, RelEval;
    match s.config {
      case Exit(v) =>
        RelPure(im, opt, v, m.result);
      case Ret(v, k) =>
        RelPure(im, opt, v, m.acc);
        RelShaped(im, opt, k, m.stack, m.ins);
      case Call(f, a, k) =>
        RelPure(im, opt, f, m.stack.top);
        RelPure(im, opt, a, m.acc);
        RelShaped(im, opt, k, m.stack.below, m.ins + 1);
        SlotShaped(m.stack);
      case Eval(e, k) =>
        EvalSound(im, opt, e, k, m);
    }
  }
}
