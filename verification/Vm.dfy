/** The interpreter as it runs (src/runtime.c:199-374): registers and stack changed in place, one
    instruction per turn of a loop. */
module Vm {
  import opened Syntax
  import opened Machine

  class Interpreter {
    const im: Image
    var acc: Value
    var stack: Stack
    var ins: nat
    var io: Io
    var result: Option<Value>   // set once `e` has been applied
    var faulted: bool

    constructor (im: Image, input: seq<byte>)
      ensures this.im == im && View() == Boot(input)
    {
      this.im := im;
      acc, stack, ins, io := Empty, Bottom, SUBST_LEN, Start(input);
      result, faulted := None, false;
    }

    function View(): State
      reads this
    {
      if result.Some? then Halted(result.value, io)
      else if faulted then Faulted(io)
      else Running(acc, stack, ins, io)
    }

    predicate Live()
      reads this
    {
      result.None? && !faulted
    }

    method Push2(v0: Value, v1: Value)
      modifies this`stack
      ensures stack == Slot(v1, Slot(v0, old(stack)))
    {
      stack := Slot(v0, stack);
      stack := Slot(v1, stack);
    }

    method Push3(v0: Value, v1: Value, v2: Value)
      modifies this`stack
      ensures stack == Slot(v2, Slot(v1, Slot(v0, old(stack))))
    {
      Push2(v0, v1);
      stack := Slot(v2, stack);
    }

    /** Pops into the result; an empty stack is a fault. */
    method Pop() returns (v: Value)
      requires Live()
      modifies this`stack, this`faulted
      ensures faulted == old(stack).Bottom?
      ensures !faulted ==> v == old(stack).top && stack == old(stack).below
      ensures faulted ==> stack == old(stack)
    {
      if stack.Bottom? {
        faulted := true;
        v := Empty;
      } else {
        v := stack.top;
        stack := stack.below;
      }
    }

    /** Puts `v` below the top and returns what was there. */
    method Exchange(v: Value) returns (elem: Value)
      requires Live()
      modifies this`stack, this`faulted
      ensures faulted == (old(stack).Bottom? || old(stack).below.Bottom?)
      ensures !faulted ==>
        elem == old(stack).below.top && stack == Slot(old(stack).top, Slot(v, old(stack).below.below))
    {
      elem := Empty;
      if stack.Bottom? || stack.below.Bottom? {
        faulted := true;
      } else {
        elem := stack.below.top;
        stack := Slot(stack.top, Slot(v, stack.below.below));
      }
    }

    /** Applies `g` to `arg` by way of index 3, to return behind the current instruction. */
    method CallAt3(g: Value, arg: Value)
      modifies this`stack, this`acc, this`ins
      ensures stack == Slot(g, Slot(J(old(ins)), old(stack))) && acc == arg && ins == 3
    {
      Push2(J(ins), g);
      acc := arg;
      ins := 3;
    }

    /** The `do_apply` switch. `advance` says that the loop goes on to the next instruction. */
    method Perform(func: Value, arg: Value) returns (advance: bool)
      requires Live()
      modifies this
      ensures advance ==> Live()
      ensures (if advance then Running(acc, stack, ins + 1, io) else View())
           == DoApply(im, old(acc), func, arg, old(stack), old(ins), old(io))
    {
      advance := true;
      match func {
        case Fn(S) =>
          acc := S1(arg);
        case S1(x) =>
          acc := S2(x, arg);
        case S2(x, y) =>
          if !(im.tce && ins == 3) {
            stack := Slot(J(ins), stack);
          }
          Push3(arg, y, x);
          acc := arg;
          ins := 0;
          advance := false;
        case Fn(K) =>
          acc := K1(arg);
        case K1(x) =>
          acc := x;
        case Fn(I) =>
          acc := arg;
        case Fn(Out(c)) =>
          acc := arg;
          io := io.Put(c);
        case J(ret) =>
          acc := arg;
          ins := ret;
        case F(ret) =>
          ins := ret;
          var w := Pop();
          if !faulted {
            acc := w;
            Push2(J(ret), arg);
            ins := 3;
          }
          advance := false;
        case Fn(C) =>
          var cont := stack;
          var here := ins;
          CallAt3(arg, C1(cont, here));
          advance := false;
        case Fn(D) =>
          acc := D1c(arg);
        case C1(saved, ret) =>
          stack := saved;
          ins := ret;
          acc := arg;
        case D1c(x) =>
          CallAt3(x, arg);
          advance := false;
        case D1s(y, z) =>
          Push3(arg, F(ins), y);
          acc := z;
          ins := 3;
          advance := false;
        case D1d(addr) =>
          Push2(arg, F(ins));
          ins := addr;
          advance := false;
        case Fn(V) =>
          acc := Fn(V);
        case P(off) =>
          acc := arg;
          io := io.Puts(CString(im.rodata, off));
        case Fn(In) =>
          io := io.Get();
          CallAt3(arg, if io.cur.None? then Fn(V) else Fn(I));
          advance := false;
        case Fn(Cmp(c)) =>
          CallAt3(arg, if io.cur == Some(c) then Fn(I) else Fn(V));
          advance := false;
        case Fn(Pipe) =>
          CallAt3(arg, if io.cur.None? then Fn(V) else Fn(Out(io.cur.value)));
          advance := false;
        case Fn(E) =>
          result := Some(arg);
          advance := false;
        case Empty =>
          faulted := true;
          advance := false;
      }
    }

    /** One turn of the dispatch loop. */
    method Turn()
      requires Live()
      modifies this
      ensures View() == Step(im, old(View()))
    {
      if ins >= |im.text| {
        faulted := true;
        return;
      }
      var advance := true;
      match im.text[ins] {
        case Apply(first, second) =>
          var func, arg := Operand(first), Operand(second);
          if first.None? {
            func := acc;
          } else if second.None? {
            arg := acc;
          }
          advance := Perform(func, arg);
        case La =>
          var func := Pop();
          if faulted {
            return;
          }
          advance := Perform(func, acc);
        case Sa(off) =>
          if acc == Fn(D) {
            acc := D1d(ins + 1);
            ins := SUBST_LEN + off;
            advance := false;
          } else {
            stack := Slot(acc, stack);
          }
        case Xch =>
          if acc == Fn(D) {
            var func := Pop();
            if faulted {
              return;
            }
            var arg := Pop();
            if faulted {
              return;
            }
            acc := D1s(func, arg);
          } else {
            var elem := Exchange(acc);
            if faulted {
              return;
            }
            acc := elem;
          }
        case Del(off) =>
          acc := D1d(ins + 1);
          ins := SUBST_LEN + off;
          advance := false;
        case Lc(off) =>
          acc := P(off);
      }
      if advance {
        ins := ins + 1;
      }
    }

    /** Runs for at most `fuel` instructions. */
    method Execute(fuel: nat)
      modifies this
      ensures View() == Run(im, old(View()), fuel)
    {
      var n := 0;
      while n < fuel && Live()
        invariant n <= fuel && Run(im, View(), fuel - n) == Run(im, old(View()), fuel)
        decreases fuel - n
      {
        Turn();
        n := n + 1;
      }
      if !Live() {
        StopStays(im, View(), 0, fuel - n);
      }
    }
  }
}
