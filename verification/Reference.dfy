/** What Unlambda 2.0 programs mean: a small machine over expression trees that knows nothing of
    instructions, addresses or stacks. It is the standard the compiler and the VM are held to. */
module Reference {
  import opened Syntax

  datatype Value =
    | Fn(p: Prim)
    | K1(x: Value)
    | S1(x: Value)
    | S2(x: Value, y: Value)
    | Resume(k: Kont)
    | Promise(d: Delayed)

  /** What a promise holds back: an expression, the application of one value to another, or a
      value that is there already. */
  datatype Delayed = Code(e: Expr) | Later(f: Value, a: Value) | Ready(v: Value)

  datatype Kont =
    | Stop
    | Arg(e: Expr, k: Kont)                // the function is being evaluated, `e` is next
    | Fun(f: Value, k: Kont)               // the argument of `f` is being evaluated
    | Force(w: Value, k: Kont)             // a promise is being evaluated, `w` awaits its value
    | Share(y: Value, z: Value, k: Kont)   // the left half of ``xz`yz is being evaluated

  datatype Config =
    | Eval(e: Expr, k: Kont)
    | Ret(v: Value, k: Kont)
    | Call(f: Value, a: Value, k: Kont)
    | Exit(v: Value)

  datatype State = State(config: Config, io: Io)

  function Test(b: bool): Value {
    Fn(if b then I else V)
  }

  function Perform(f: Value, a: Value, k: Kont, io: Io): State {
    match f
    case Fn(K) => State(Ret(K1(a), k), io)
    case K1(x) => State(Ret(x, k), io)
    case Fn(S) => State(Ret(S1(a), k), io)
    case S1(x) => State(Ret(S2(x, a), k), io)
    case S2(x, y) => State(Call(x, a, Share(y, a, k)), io)
    case Fn(I) => State(Ret(a, k), io)
    case Fn(V) => State(Ret(Fn(V), k), io)
    case Fn(C) => State(Call(a, Resume(k), k), io)
    case Resume(k') => State(Ret(a, k'), io)
    case Fn(D) => State(Ret(Promise(Ready(a)), k), io)
    case Promise(Code(e)) => State(Eval(e, Force(a, k)), io)
    case Promise(Later(y, z)) => State(Call(y, z, Force(a, k)), io)
    case Promise(Ready(x)) => State(Ret(x, Force(a, k)), io)
    case Fn(E) => State(Exit(a), io)
    case Fn(Out(c)) => State(Ret(a, k), io.Put(c))
    case Fn(In) => State(Call(a, Test(io.Get().cur.Some?), k), io.Get())
    case Fn(Cmp(c)) => State(Call(a, Test(io.cur == Some(c)), k), io)
    case Fn(Pipe) => State(Call(a, Fn(if io.cur.Some? then Out(io.cur.value) else V), k), io)
  }

  function Step(s: State): State {
    match s.config
    case Exit(_) => s
    case Eval(Leaf(p), k) => State(Ret(Fn(p), k), s.io)
    case Eval(App(l, r), k) => State(Eval(l, Arg(r, k)), s.io)
    case Ret(v, Stop) => State(Exit(v), s.io)
    case Ret(v, Arg(e, k)) =>
      State(if v == Fn(D) then Ret(Promise(Code(e)), k) else Eval(e, Fun(v, k)), s.io)
    case Ret(v, Fun(f, k)) => State(Call(f, v, k), s.io)
    case Ret(v, Force(w, k)) => State(Call(v, w, k), s.io)
    case Ret(v, Share(y, z, k)) =>
      State(if v == Fn(D) then Ret(Promise(Later(y, z)), k) else Call(y, z, Fun(v, k)), s.io)
    case Call(f, a, k) => Perform(f, a, k, s.io)
  }

  function Run(s: State, n: nat): State
    decreases n
  {
    if n == 0 then s else Run(Step(s), n - 1)
  }

  function Boot(e: Expr, input: seq<byte>): State {
    State(Eval(e, Stop), Start(input))
  }

  lemma {:induction false} RunAdd(s: State, m: nat, n: nat)
    ensures Run(s, m + n) == Run(Run(s, m), n)
    decreases m
  {
    if m > 0 {
      RunAdd(Step(s), m - 1, n);
    }
  }

  /** Once a program has exited it stays so. */
  lemma {:induction false} ExitStays(s: State, m: nat, n: nat)
    requires m <= n && Run(s, m).config.Exit?
    ensures Run(s, n) == Run(s, m)
    decreases n
  {
    if m > 0 {
      ExitStays(Step(s), m - 1, n - 1);
    } else if n > 0 {
      ExitStays(Step(s), 0, n - 1);
    }
  }

  /** Output only ever grows. */
  lemma {:induction false} OutputGrows(s: State, m: nat, n: nat)
    requires m <= n
    ensures Run(s, m).io.output <= Run(s, n).io.output
    decreases n
  {
    if m > 0 {
      OutputGrows(Step(s), m - 1, n - 1);
    } else if n > 0 {
      assert s.io.output <= Step(s).io.output;
      OutputGrows(Step(s), 0, n - 1);
    }
  }
}
