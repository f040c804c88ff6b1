/** What programs do to the world: input is read byte by byte, output only grows, and nothing else
    happens (src/runtime.c:259-262, 301-328). Stated on the fields of the world as such, for the
    reference machine and for the VM. */
module World {
  import opened Syntax
  import opened Correctness
  import R = Reference
  import M = Machine

  /** The input is what it was at the start, the position is inside it, and the current character is
      the one before the position; there is none before the first read and after the last one failed. */
  ghost predicate Sane(input: seq<byte>, io: Io) {
    && io.input == input && io.pos <= |input|
    && (io.cur.Some? ==> io.pos > 0 && io.cur.value == input[io.pos - 1])
    && (io.cur.None? ==> io.pos == 0 || io.pos == |input|)
  }

  /** From one world to a later one: reading only goes forward, and what is written stays. */
  ghost predicate Later(io: Io, io': Io) {
    io'.input == io.input && io.pos <= io'.pos && io.output <= io'.output
  }

  lemma ReadReference(a: R.Value, k: R.Kont, io: Io)
    ensures
      R.Step(R.State(R.Call(R.Fn(In), a, k), io))
      == if io.pos < |io.input|
         then R.State(R.Call(a, R.Fn(I), k), Io(io.input, io.pos + 1, Some(io.input[io.pos]), io.output))
         else R.State(R.Call(a, R.Fn(V), k), Io(io.input, io.pos, None, io.output))
  {
  }

  lemma WriteReference(x: byte, a: R.Value, k: R.Kont, io: Io)
    ensures
      R.Step(R.State(R.Call(R.Fn(Out(x)), a, k), io))
      == R.State(R.Ret(a, k), Io(io.input, io.pos, io.cur, io.output + [x]))
  {
  }

  /** The current character is compared, or made a printing function; without one the answer is `v`. */
  lemma CurrentReference(x: byte, a: R.Value, k: R.Kont, io: Io)
    ensures
      R.Step(R.State(R.Call(R.Fn(Cmp(x)), a, k), io))
      == R.State(R.Call(a, R.Fn(if io.cur == Some(x) then I else V), k), io)
    ensures
      R.Step(R.State(R.Call(R.Fn(Pipe), a, k), io))
      == R.State(R.Call(a, R.Fn(if io.cur.Some? then Out(io.cur.value) else V), k), io)
  {
  }

  /** No other step of the reference machine touches the world. */
  lemma OnlyInAndOut(s: R.State)
    requires !(s.config.Call? && s.config.f.Fn? && (s.config.f.p.In? || s.config.f.p.Out?))
    ensures R.Step(s).io == s.io
  {
  }

  lemma ReadVm(im: M.Image, acc: M.Value, a: M.Value, st: M.Stack, ins: nat, io: Io)
    ensures
      M.DoApply(im, acc, M.Fn(In), a, st, ins, io)
      == if io.pos < |io.input|
         then M.Running(M.Fn(I), M.Slot(a, M.Slot(M.J(ins), st)), 3,
                        Io(io.input, io.pos + 1, Some(io.input[io.pos]), io.output))
         else M.Running(M.Fn(V), M.Slot(a, M.Slot(M.J(ins), st)), 3, Io(io.input, io.pos, None, io.output))
  {
  }

  /** A byte is written, or the bytes of a string up to the first zero. */
  lemma WriteVm(im: M.Image, acc: M.Value, x: byte, off: nat, a: M.Value, st: M.Stack, ins: nat, io: Io)
    ensures
      M.DoApply(im, acc, M.Fn(Out(x)), a, st, ins, io)
      == M.Running(a, st, ins + 1, Io(io.input, io.pos, io.cur, io.output + [x]))
    ensures
      M.DoApply(im, acc, M.P(off), a, st, ins, io)
      == M.Running(a, st, ins + 1, Io(io.input, io.pos, io.cur, io.output + M.CString(im.rodata, off)))
  {
  }

  lemma StepSane(input: seq<byte>, s: R.State)
    requires Sane(input, s.io)
    ensures Sane(input, R.Step(s).io) && Later(s.io, R.Step(s).io)
  {
    if s.config.Call? && s.config.f.Fn? && s.config.f.p.In? {
      ReadReference(s.config.a, s.config.k, s.io);
    } else if s.config.Call? && s.config.f.Fn? && s.config.f.p.Out? {
      WriteReference(s.config.f.p.ch, s.config.a, s.config.k, s.io);
    } else {
      OnlyInAndOut(s);
    }
  }

  lemma {:induction false} RunSane(input: seq<byte>, s: R.State, n: nat)
    requires Sane(input, s.io)
    ensures Sane(input, R.Run(s, n).io) && Later(s.io, R.Run(s, n).io)
    decreases n
  {
    hide R.Step, Sane;
    if n > 0 {
      StepSane(input, s);
      RunSane(input, R.Step(s), n - 1);
    }
  }

  lemma StepSaneVm(input: seq<byte>, im: M.Image, m: M.State)
    requires Sane(input, m.io)
    ensures Sane(input, M.Step(im, m).io) && Later(m.io, M.Step(im, m).io)
  {
  }

  lemma {:induction false} RunSaneVm(input: seq<byte>, im: M.Image, m: M.State, n: nat)
    requires Sane(input, m.io)
    ensures Sane(input, M.Run(im, m, n).io) && Later(m.io, M.Run(im, m, n).io)
    decreases n
  {
    hide M.Step, Sane;
    if n > 0 {
      StepSaneVm(input, im, m);
      RunSaneVm(input, im, M.Step(im, m), n - 1);
    }
  }

  /** Through every run of every program, on either machine. */
  lemma ReachedSane(e: Expr, input: seq<byte>, opt: bool, tce: bool, i: nat, j: nat)
    ensures Sane(input, RefAt(e, input, i).io) && Sane(input, VmAt(e, input, opt, tce, j).io)
    ensures RefAt(e, input, 0).io == Io(input, 0, None, []) == VmAt(e, input, opt, tce, 0).io
    ensures Later(RefAt(e, input, i).io, RefAt(e, input, i + j).io)
    ensures Later(VmAt(e, input, opt, tce, i).io, VmAt(e, input, opt, tce, i + j).io)
  {
    hide Sane, Later, Built;
    assert Sane(input, Start(input)) by {
      StartSane(input);
    }
    RunSane(input, R.Boot(e, input), i);
    RunSane(input, R.Run(R.Boot(e, input), i), j);
    R.RunAdd(R.Boot(e, input), i, j);
    var im := Built(e, opt, tce);
    RunSaneVm(input, im, M.Boot(input), i);
    RunSaneVm(input, im, M.Boot(input), j);
    RunSaneVm(input, im, M.Run(im, M.Boot(input), i), j);
    M.RunAdd(im, M.Boot(input), i, j);
  }

  lemma StartSane(input: seq<byte>)
    ensures Sane(input, Start(input))
  {
  }
}
