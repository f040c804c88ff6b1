/** The Unlambda language as the compiler sees it: primitives, expressions, and the
    world a program talks to (src/defs.h, src/vm_defs.h). */
module Syntax {

  type byte = x: int | 0 <= x < 256

  datatype Option<+T> = None | Some(value: T)

  /** The built-in functions. `Out(c)` is `.c`, `Cmp(c)` is `?c`, `In` is `@`, `Pipe` is `|`. */
  datatype Prim = K | S | I | V | C | D | E | In | Pipe | Out(ch: byte) | Cmp(ch: byte)

  datatype Expr = Leaf(p: Prim) | App(l: Expr, r: Expr)

  /** Standard input with a read position, the current character (`None` before the first read
      and after end of file), and everything written so far. */
  datatype Io = Io(input: seq<byte>, pos: nat, cur: Option<byte>, output: seq<byte>) {

    function Put(b: byte): Io {
      this.(output := output + [b])
    }

    function Puts(s: seq<byte>): Io {
      this.(output := output + s)
    }

    function Get(): Io {
      if pos < |input| then this.(pos := pos + 1, cur := Some(input[pos]))
      else this.(cur := None)
    }
  }

  function Start(input: seq<byte>): Io {
    Io(input, 0, None, [])
  }
}
