/** The bytecode virtual machine (src/runtime.c:199-374): instructions, values, and one turn of
    the dispatch loop as a function of the machine's registers. */
module Machine {
  import opened Syntax

  datatype Ins =
    | Apply(first: Option<Prim>, second: Option<Prim>)  // None stands for the accumulator
    | La
    | Sa(off: nat)
    | Del(off: nat)
    | Lc(off: nat)
    | Xch

  /** `Empty` is the zero value registers start with; `J`, `F` and `P` are the internal values:
      return marker, force marker, string printer. */
  datatype Value =
    | Empty
    | Fn(p: Prim)
    | K1(x: Value)
    | S1(x: Value)
    | S2(x: Value, y: Value)
    | C1(stack: Stack, ins: nat)
    | D1s(y: Value, z: Value)
    | D1c(x: Value)
    | D1d(addr: nat)
    | J(ins: nat)
    | F(ins: nat)
    | P(off: nat)

  datatype Stack = Bottom | Slot(top: Value, below: Stack)

  /** A loaded program. `tce` says whether s2 applied at index 3 skips the return marker: the
      source always does; the machine without it is what that shortcut is compared with. */
  datatype Image = Image(text: seq<Ins>, rodata: seq<byte>, tce: bool)

  datatype State =
    | Running(acc: Value, stack: Stack, ins: nat, io: Io)
    | Halted(result: Value, io: Io)
    | Faulted(io: Io)

  /** A value a program can hold: no register filler, no marker and no string printer anywhere in it. */
  predicate Pure(v: Value)
    decreases v
  {
    match v
    case Fn(_) => true
    case K1(x) => Pure(x)
    case S1(x) => Pure(x)
    case S2(x, y) => Pure(x) && Pure(y)
    case C1(st, _) => Shaped(st)
    case D1s(y, z) => Pure(y) && Pure(z)
    case D1c(x) => Pure(x)
    case D1d(_) => true
    case _ => false
  }

  /** A stack slot holds a value or a return marker, or a force marker over the waiting argument. */
  predicate Shaped(st: Stack)
    decreases st
  {
    match st
    case Bottom => true
    case Slot(J(_), below) => Shaped(below)
    case Slot(F(_), below) => below.Slot? && Pure(below.top) && Shaped(below.below)
    case Slot(v, below) => Pure(v) && Shaped(below)
  }

  /** The next instruction is inside the text, markers stay on the stack with what belongs to them
      beneath, and the accumulator holds a value, its initial filler, or a string that the next
      instruction prints. */
  predicate Sound(im: Image, s: State) {
    match s
    case Faulted(_) => false
    case Halted(v, _) => Pure(v)
    case Running(acc, st, ins, _) =>
      && ins < |im.text|
      && Shaped(st)
      && (acc.Empty? || Pure(acc) || (acc.P? && im.text[ins].Apply? && im.text[ins].first.None?))
  }

  /** The shared routine at indices 0 to 4 (src/runtime.c:43-50). */
  const SUBST: seq<Ins> := [La, Xch, La, La, La]

  const SUBST_LEN: nat := 5

  /** The bytes from an offset up to the first zero byte, as fputs sees them. */
  function CString(data: seq<byte>, off: nat): seq<byte>
    decreases |data| - off
  {
    if off >= |data| || data[off] == 0 then [] else [data[off]] + CString(data, off + 1)
  }

  function Test(b: bool): Value {
    Fn(if b then I else V)
  }

  /** The `do_apply` switch: apply `f` to `a` while executing the instruction at `ins`.
      Only a `d1_d` promise leaves the accumulator `acc` as it was. */
  function DoApply(im: Image, acc: Value, f: Value, a: Value, st: Stack, ins: nat, io: Io): State {
    match f
    case Fn(S) => Running(S1(a), st, ins + 1, io)
    case S1(x) => Running(S2(x, a), st, ins + 1, io)
    case S2(x, y) =>
      var base := if im.tce && ins == 3 then st else Slot(J(ins), st);
      Running(a, Slot(x, Slot(y, Slot(a, base))), 0, io)
    case Fn(K) => Running(K1(a), st, ins + 1, io)
    case K1(x) => Running(x, st, ins + 1, io)
    case Fn(I) => Running(a, st, ins + 1, io)
    case Fn(Out(c)) => Running(a, st, ins + 1, io.Put(c))
    case J(ret) => Running(a, st, ret + 1, io)
    case F(ret) =>
      if st.Bottom? then Faulted(io)
      else Running(st.top, Slot(a, Slot(J(ret), st.below)), 3, io)
    case Fn(C) => Running(C1(st, ins), Slot(a, Slot(J(ins), st)), 3, io)
    case Fn(D) => Running(D1c(a), st, ins + 1, io)
    case C1(saved, ret) => Running(a, saved, ret + 1, io)
    case D1c(x) => Running(a, Slot(x, Slot(J(ins), st)), 3, io)
    case D1s(y, z) => Running(z, Slot(y, Slot(F(ins), Slot(a, st))), 3, io)
    case D1d(addr) => Running(acc, Slot(F(ins), Slot(a, st)), addr, io)
    case Fn(V) => Running(Fn(V), st, ins + 1, io)
    case P(off) => Running(a, st, ins + 1, io.Puts(CString(im.rodata, off)))
    case Fn(In) =>
      Running(Test(io.Get().cur.Some?), Slot(a, Slot(J(ins), st)), 3, io.Get())
    case Fn(Cmp(c)) => Running(Test(io.cur == Some(c)), Slot(a, Slot(J(ins), st)), 3, io)
    case Fn(Pipe) =>
      Running(Fn(if io.cur.Some? then Out(io.cur.value) else V), Slot(a, Slot(J(ins), st)), 3, io)
    case Fn(E) => Halted(a, io)
    case Empty => Faulted(io)
  }

  function Operand(p: Option<Prim>): Value {
    if p.Some? then Fn(p.value) else Empty
  }

  /** One turn of the dispatch loop. */
  function Step(im: Image, s: State): State {
    if !s.Running? then s
    else if s.ins >= |im.text| then Faulted(s.io)
    else
      var Running(acc, st, ins, io) := s;
      match im.text[ins]
      case Apply(first, second) =>
        if first.None? then DoApply(im, acc, acc, Operand(second), st, ins, io)
        else DoApply(im, acc, Fn(first.value), if second.Some? then Fn(second.value) else acc, st, ins, io)
      case La =>
        if st.Bottom? then Faulted(io) else DoApply(im, acc, st.top, acc, st.below, ins, io)
      case Sa(off) =>
        if acc == Fn(D) then Running(D1d(ins + 1), st, SUBST_LEN + off, io)
        else Running(acc, Slot(acc, st), ins + 1, io)
      case Xch =>
        if st.Bottom? || st.below.Bottom? then Faulted(io)
        else if acc == Fn(D) then Running(D1s(st.top, st.below.top), st.below.below, ins + 1, io)
        else Running(st.below.top, Slot(st.top, Slot(acc, st.below.below)), ins + 1, io)
      case Del(off) => Running(D1d(ins + 1), st, SUBST_LEN + off, io)
      case Lc(off) => Running(P(off), st, ins + 1, io)
  }

  function Run(im: Image, s: State, n: nat): State
    decreases n
  {
    if n == 0 then s else Run(im, Step(im, s), n - 1)
  }

  function Boot(input: seq<byte>): State {
    Running(Empty, Bottom, SUBST_LEN, Start(input))
  }

  /** What the loader puts in memory: the shared routine followed by the program. */
  function Load(text: seq<Ins>, rodata: seq<byte>, tce: bool): Image {
    Image(SUBST + text, rodata, tce)
  }

  lemma {:induction false} RunAdd(im: Image, s: State, m: nat, n: nat)
    ensures Run(im, s, m + n) == Run(im, Run(im, s, m), n)
    decreases m
  {
    if m > 0 {
      RunAdd(im, Step(im, s), m - 1, n);
    }
  }

  lemma {:induction false} StopStays(im: Image, s: State, m: nat, n: nat)
    requires m <= n && !Run(im, s, m).Running?
    ensures Run(im, s, n) == Run(im, s, m)
    decreases n
  {
    if m > 0 {
      StopStays(im, Step(im, s), m - 1, n - 1);
    } else if n > 0 {
      StopStays(im, Step(im, s), 0, n - 1);
    }
  }

  lemma {:induction false} OutputGrows(im: Image, s: State, m: nat, n: nat)
    requires m <= n
    ensures Run(im, s, m).io.output <= Run(im, s, n).io.output
    decreases n
  {
    if m > 0 {
      OutputGrows(im, Step(im, s), m - 1, n - 1);
    } else if n > 0 {
      assert s.io.output <= Step(im, s).io.output;
      OutputGrows(im, Step(im, s), 0, n - 1);
    }
  }
}
