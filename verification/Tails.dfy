/** What tail-call elimination is for (src/runtime.c:242-249): a function that goes on calling itself
    in tail position runs in a stack of constant height, and without it the stack grows for ever. */
module Tails {
  import opened Syntax
  import opened Compile
  import opened Simulation
  import opened Correctness
  import M = Machine

  /** A full `s` on top at index 3: one instruction leaves its three values on what was beneath, with a
      return marker under them only if tail calls are not eliminated. Anywhere else, LA puts the marker
      there in any case. */
  lemma TailStep(im: M.Image, acc: M.Value, x: M.Value, y: M.Value, st: M.Stack, ins: nat, io: Io)
    requires ins < |im.text| && im.text[ins] == M.La
    ensures
      var m := M.Step(im, M.Running(acc, M.Slot(M.S2(x, y), st), ins, io));
      m == if im.tce && ins == 3
           then M.Running(acc, M.Slot(x, M.Slot(y, M.Slot(acc, st))), 0, io)
           else M.Running(acc, M.Slot(x, M.Slot(y, M.Slot(acc, M.Slot(M.J(ins), st)))), 0, io)
    ensures
      var m := M.Step(im, M.Running(acc, M.Slot(M.S2(x, y), st), ins, io));
      Height(m.stack) == Height(M.Slot(M.S2(x, y), st)) + if im.tce && ins == 3 then 2 else 3
  {
    HeightUp();
  }

  lemma HeightUp()
    ensures forall v: M.Value, st: M.Stack :: Height(M.Slot(v, st)) == 1 + Height(st)
    ensures Height(M.Bottom) == 0
  {
  }

  /** ```sii``sii */
  const LOOP: Expr :=
    App(App(App(Leaf(S), Leaf(I)), Leaf(I)), App(App(Leaf(S), Leaf(I)), Leaf(I)))

  const SELF: M.Value := M.S2(M.Fn(I), M.Fn(I))

  const TWICE: Expr := App(App(Leaf(S), Leaf(I)), Leaf(I))

  lemma TwiceCode(opt: bool, at: nat, ro: nat)
    ensures Text(opt, TWICE, at, ro) == [M.Apply(Some(S), Some(I)), M.Apply(None, Some(I))]
    ensures Data(opt, TWICE) == [] && Len(opt, TWICE) == 2
  {
  }

  lemma LoopCode(opt: bool, tce: bool)
    ensures Built(LOOP, opt, tce)
         == M.Image([M.La, M.Xch, M.La, M.La, M.La,
                     M.Apply(Some(S), Some(I)), M.Apply(None, Some(I)), M.Sa(6),
                     M.Apply(Some(S), Some(I)), M.Apply(None, Some(I)), M.La, M.Apply(Some(E), None)], [], tce)
  {
    BuiltParts(LOOP, opt, tce);
    LoopText(opt);
    hide Text, Data;
    assert M.SUBST == [M.La, M.Xch, M.La, M.La, M.La];
    assert Built(LOOP, opt, tce).tce == tce;
  }

  lemma LoopText(opt: bool)
    ensures Data(opt, LOOP) == []
    ensures Text(opt, LOOP, 0, 0)
         == [M.Apply(Some(S), Some(I)), M.Apply(None, Some(I)), M.Sa(6),
             M.Apply(Some(S), Some(I)), M.Apply(None, Some(I)), M.La]
  {
    assert LOOP == App(TWICE, TWICE) && !Chain(LOOP);
    TextParts(opt, LOOP, 0, 0);
    DataJoin(opt, LOOP);
    hide Text, Data, Len;
    TwiceCode(opt, 0, 0);
    TwiceCode(opt, 3, 0);
  }

  /** Where the loop comes round: at index 3, about to apply the function to itself. */
  function Round(st: M.Stack, io: Io): M.State {
    M.Running(SELF, M.Slot(SELF, st), 3, io)
  }

  /** What is under the function after one more round. */
  function Below(tce: bool, st: M.Stack): M.Stack {
    if tce then st else M.Slot(M.J(3), st)
  }

  /** The first ten states. */
  function Opening(j: nat, io: Io): M.State
    requires j <= 9
  {
    var one := M.Slot(SELF, M.Bottom);
    var base := M.Slot(M.J(10), M.Bottom);
    match j
    case 0 => M.Running(M.Empty, M.Bottom, 5, io)
    case 1 => M.Running(M.S1(M.Fn(I)), M.Bottom, 6, io)
    case 2 => M.Running(SELF, M.Bottom, 7, io)
    case 3 => M.Running(SELF, one, 8, io)
    case 4 => M.Running(M.S1(M.Fn(I)), one, 9, io)
    case 5 => M.Running(SELF, one, 10, io)
    case 6 => M.Running(SELF, M.Slot(M.Fn(I), M.Slot(M.Fn(I), M.Slot(SELF, base))), 0, io)
    case 7 => M.Running(SELF, M.Slot(M.Fn(I), M.Slot(SELF, base)), 1, io)
    case 8 => M.Running(SELF, M.Slot(M.Fn(I), M.Slot(SELF, base)), 2, io)
    case _ => Round(base, io)
  }

  lemma OpeningStep(opt: bool, tce: bool, j: nat, io: Io)
    requires j < 9
    ensures M.Step(Built(LOOP, opt, tce), Opening(j, io)) == Opening(j + 1, io)
  {
    LoopCode(opt, tce);
    hide Built;
  }

  lemma {:induction false} Opens(input: seq<byte>, opt: bool, tce: bool, j: nat)
    requires j <= 9
    ensures VmAt(LOOP, input, opt, tce, j) == Opening(j, Start(input))
    decreases j
  {
    hide Built, M.Step;
    if j > 0 {
      Opens(input, opt, tce, j - 1);
      OpeningStep(opt, tce, j - 1, Start(input));
      M.RunAdd(Built(LOOP, opt, tce), M.Boot(input), j - 1, 1);
      OneStep(Built(LOOP, opt, tce), VmAt(LOOP, input, opt, tce, j - 1));
    }
  }

  lemma OneStep(im: M.Image, m: M.State)
    ensures M.Run(im, m, 1) == M.Step(im, m)
  {
    hide M.Step;
  }

  /** The states of one round. */
  function Turning(j: nat, below: M.Stack, st: M.Stack, io: Io): M.State
    requires j <= 4
  {
    match j
    case 0 => Round(st, io)
    case 1 => M.Running(SELF, M.Slot(M.Fn(I), M.Slot(M.Fn(I), M.Slot(SELF, below))), 0, io)
    case 2 => M.Running(SELF, M.Slot(M.Fn(I), M.Slot(SELF, below)), 1, io)
    case 3 => M.Running(SELF, M.Slot(M.Fn(I), M.Slot(SELF, below)), 2, io)
    case _ => Round(below, io)
  }

  lemma TurningStep(im: M.Image, j: nat, st: M.Stack, io: Io)
    requires Based(im) && j < 4
    ensures M.Step(im, Turning(j, Below(im.tce, st), st, io)) == Turning(j + 1, Below(im.tce, st), st, io)
  {
    assert forall k :: 0 <= k < 5 ==> im.text[k] == im.text[..M.SUBST_LEN][k] == M.SUBST[k];
  }

  lemma {:induction false} Turns(im: M.Image, st: M.Stack, io: Io, j: nat)
    requires Based(im) && j <= 4
    ensures M.Run(im, Round(st, io), j) == Turning(j, Below(im.tce, st), st, io)
    decreases j
  {
    hide M.Step, Based;
    if j > 0 {
      Turns(im, st, io, j - 1);
      TurningStep(im, j - 1, st, io);
      M.RunAdd(im, Round(st, io), j - 1, 1);
      OneStep(im, Turning(j - 1, Below(im.tce, st), st, io));
    }
  }

  /** With tail-call elimination, any number of instructions from a round on. */
  lemma {:induction false} StaysLow(im: M.Image, st: M.Stack, io: Io, j: nat)
    requires Based(im) && im.tce
    ensures M.Run(im, Round(st, io), j).Running? && Height(M.Run(im, Round(st, io), j).stack) <= Height(st) + 3
    decreases j
  {
    hide M.Step, M.Run, Based;
    HeightUp();
    if j <= 4 {
      Turns(im, st, io, j);
    } else {
      Turns(im, st, io, 4);
      M.RunAdd(im, Round(st, io), 4, j - 4);
      StaysLow(im, st, io, j - 4);
    }
  }

  /** The loop never ends, and with tail-call elimination its stack is never higher than four slots. */
  lemma LoopStaysLow(input: seq<byte>, opt: bool, j: nat)
    ensures VmAt(LOOP, input, opt, true, j).Running? && Height(VmAt(LOOP, input, opt, true, j).stack) <= 4
  {
    hide M.Step, M.Run, Built, Based;
    HeightUp();
    if j <= 9 {
      Opens(input, opt, true, j);
    } else {
      Opens(input, opt, true, 9);
      LoopBased(opt, true);
      M.RunAdd(Built(LOOP, opt, true), M.Boot(input), 9, j - 9);
      StaysLow(Built(LOOP, opt, true), M.Slot(M.J(10), M.Bottom), Start(input), j - 9);
    }
  }

  lemma LoopBased(opt: bool, tce: bool)
    ensures Based(Built(LOOP, opt, tce)) && Built(LOOP, opt, tce).tce == tce
  {
    LoopCode(opt, tce);
    hide Built;
  }

  /** Without it, each round leaves one marker more: after `n` rounds the stack is `n` higher. */
  lemma {:induction false} Climbs(im: M.Image, st: M.Stack, io: Io, n: nat)
    requires Based(im) && !im.tce
    ensures M.Run(im, Round(st, io), 4 * n).Running?
    ensures Height(M.Run(im, Round(st, io), 4 * n).stack) == Height(st) + 1 + n
    decreases n
  {
    hide M.Step, Based;
    HeightUp();
    if n > 0 {
      Turns(im, st, io, 4);
      M.RunAdd(im, Round(st, io), 4, 4 * (n - 1));
      Climbs(im, M.Slot(M.J(3), st), io, n - 1);
    }
  }

  /** Without tail-call elimination the stack of the loop gets higher than any bound. */
  lemma LoopClimbs(input: seq<byte>, opt: bool, n: nat)
    ensures
      var m := VmAt(LOOP, input, opt, false, 9 + 4 * n);
      m.Running? && Height(m.stack) == n + 2
  {
    hide M.Step, M.Run, Built, Based;
    HeightUp();
    Opens(input, opt, false, 9);
    LoopBased(opt, false);
    M.RunAdd(Built(LOOP, opt, false), M.Boot(input), 9, 4 * n);
    Climbs(Built(LOOP, opt, false), M.Slot(M.J(10), M.Bottom), Start(input), n);
  }
}
