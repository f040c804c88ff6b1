/** Writing bytecode in network byte order and reading it back (src/codegen.c:120-184,
    src/runtime.c:171-190), on a little-endian host. The loader's decoding loop stops `SUBST_LEN`
    instructions early, so what it yields is the compiled program only on a condition. */
module Loader {
  import opened Syntax
  import opened Ast
  import opened Compile
  import Codegen
  import Lexer
  import opened Correctness
  import R = Reference
  import M = Machine

  const WORD: nat := 0x1_0000_0000

  /** htonl and ntohl: the four bytes of a word in reverse order. */
  function Swap(n: nat): nat
    requires n < WORD
  {
    (n % 0x100) * 0x100_0000 + (n / 0x100 % 0x100) * 0x1_0000 + (n / 0x1_0000 % 0x100) * 0x100 + n / 0x100_0000
  }

  /** A word is its four bytes. */
  lemma Bytes(n: nat, b3: nat, b2: nat, b1: nat, b0: nat)
    requires b3 < 0x100 && b2 < 0x100 && b1 < 0x100 && b0 < 0x100
    requires n == b3 * 0x100_0000 + b2 * 0x1_0000 + b1 * 0x100 + b0
    ensures n < WORD
    ensures n % 0x100 == b0 && n / 0x100 % 0x100 == b1 && n / 0x1_0000 % 0x100 == b2 && n / 0x100_0000 == b3
  {
    assert n / 0x100 == b3 * 0x1_0000 + b2 * 0x100 + b1;
    assert n / 0x1_0000 == b3 * 0x100 + b2;
  }

  lemma SwapBytes(n: nat, b3: nat, b2: nat, b1: nat, b0: nat)
    requires b3 < 0x100 && b2 < 0x100 && b1 < 0x100 && b0 < 0x100
    requires n == b3 * 0x100_0000 + b2 * 0x1_0000 + b1 * 0x100 + b0
    ensures n < WORD && Swap(n) == b0 * 0x100_0000 + b1 * 0x1_0000 + b2 * 0x100 + b3
  {
    Bytes(n, b3, b2, b1, b0);
  }

  lemma FourBytes(n: nat) returns (b3: nat, b2: nat, b1: nat, b0: nat)
    requires n < WORD
    ensures b3 < 0x100 && b2 < 0x100 && b1 < 0x100 && b0 < 0x100
    ensures n == b3 * 0x100_0000 + b2 * 0x1_0000 + b1 * 0x100 + b0
  {
    var low := n / 0x100;
    b0, b1, b2, b3 := n % 0x100, low % 0x100, low / 0x100 % 0x100, low / 0x100 / 0x100;
  }

  lemma SwapSwap(n: nat)
    requires n < WORD
    ensures Swap(n) < WORD && Swap(Swap(n)) == n
  {
    hide Swap;
    var b3, b2, b1, b0 := FourBytes(n);
    SwapBytes(n, b3, b2, b1, b0);
    SwapBytes(Swap(n), b0, b1, b2, b3);
  }

  /** The instructions whose opcode has the OFFSET bit. */
  predicate HasOffset(ins: Ins) {
    ins.Sa? || ins.Del? || ins.Lc?
  }

  function WithOffset(ins: Ins, off: nat): Ins
    requires HasOffset(ins)
  {
    ins.(off := off)
  }

  /** Offsets fit a machine word. */
  predicate Words(code: seq<Ins>) {
    forall i :: 0 <= i < |code| && HasOffset(code[i]) ==> code[i].off < WORD
  }

  function Swapped(ins: Ins): Ins
    requires HasOffset(ins) ==> ins.off < WORD
  {
    if HasOffset(ins) then WithOffset(ins, Swap(ins.off)) else ins
  }

  /** The bytecode file's text section. */
  function Encode(code: seq<Ins>): (file: seq<Ins>)
    requires Words(code)
    ensures |file| == |code|
  {
    seq(|code|, i requires 0 <= i < |code| => Swapped(code[i]))
  }

  /** The decoding loop of `u6a_runtime_init`, on the buffer that holds the shared routine and then
      the `textLen` instructions of the file. */
  method Decode(text: array<Ins>, textLen: nat)
    requires text.Length == M.SUBST_LEN + textLen && Words(text[..])
    modifies text
    ensures forall i :: 0 <= i < text.Length ==>
      text[i] == if M.SUBST_LEN <= i < textLen then Swapped(old(text[i])) else old(text[i])
  {
    var i := M.SUBST_LEN;
    while i < textLen
      invariant M.SUBST_LEN <= i && (i <= textLen || i == M.SUBST_LEN)
      invariant forall k :: 0 <= k < text.Length ==>
        text[k] == if M.SUBST_LEN <= k < i then Swapped(old(text[k])) else old(text[k])
      decreases textLen - i
    {
      assert old(text[..])[i] == old(text[i]);
      if HasOffset(text[i]) {
        text[i] := WithOffset(text[i], Swap(text[i].off));
      }
      i := i + 1;
    }
  }

  /** An instruction comes through even if the loader forgets to decode it. */
  predicate Survives(ins: Ins)
    requires HasOffset(ins) ==> ins.off < WORD
  {
    HasOffset(ins) ==> Swap(ins.off) == ins.off
  }

  /** What the loader makes of a compiled program: the last instructions stay as they are in the file. */
  function Undecoded(code: seq<Ins>): (text: seq<Ins>)
    requires Words(code)
    ensures |text| == |code|
  {
    seq(|code|, i requires 0 <= i < |code| => if i + M.SUBST_LEN < |code| then code[i] else Swapped(code[i]))
  }

  /** What is in memory then. */
  function Loaded(code: seq<Ins>): (text: seq<Ins>)
    requires Words(code)
    ensures |text| == M.SUBST_LEN + |code|
  {
    M.SUBST + Undecoded(code)
  }

  /** Loading a compiled program: the shared routine, then the file, then the decoding loop. */
  method LoadText(code: seq<Ins>) returns (text: array<Ins>)
    requires Words(code)
    ensures text[..] == Loaded(code)
  {
    hide Swap;
    var file := Encode(code);
    text := new Ins[M.SUBST_LEN + |code|](i requires 0 <= i < M.SUBST_LEN + |code| =>
      if i < M.SUBST_LEN then M.SUBST[i] else file[i - M.SUBST_LEN]);
    forall i | 0 <= i < |code| && HasOffset(code[i])
      ensures Swap(code[i].off) < WORD && Swap(Swap(code[i].off)) == code[i].off
    {
      SwapSwap(code[i].off);
    }
    assert Words(text[..]);
    Decode(text, |code|);
  }

  /** The loader yields the compiled program exactly if each of its last five instructions has no
      offset or one that reads the same in both byte orders. */
  lemma LoadedExactly(code: seq<Ins>)
    requires Words(code)
    ensures Loaded(code) == M.SUBST + code
       <==> forall i :: 0 <= i < |code| && |code| <= i + M.SUBST_LEN ==> Survives(code[i])
  {
    hide Swap, M.SUBST, Survives;
    BehindSame(M.SUBST, Undecoded(code), code);
    forall i | 0 <= i < |code|
      ensures Undecoded(code)[i] == code[i] <==> i + M.SUBST_LEN < |code| || Survives(code[i])
    {
      SwappedSame(code[i]);
    }
  }

  lemma SwappedSame(ins: Ins)
    requires HasOffset(ins) ==> ins.off < WORD
    ensures Swapped(ins) == ins <==> Survives(ins)
  {
    hide Swap;
  }

  lemma BehindSame<T>(pre: seq<T>, s: seq<T>, t: seq<T>)
    ensures pre + s == pre + t <==> s == t
  {
    assert (pre + s)[|pre|..] == s && (pre + t)[|pre|..] == t;
  }

  /** All skip offsets in (lo, hi], all string offsets in [ro, rh). */
  predicate Inside(code: seq<Ins>, lo: nat, hi: nat, ro: nat, rh: nat) {
    forall i :: 0 <= i < |code| ==>
      && (code[i].Sa? || code[i].Del? ==> lo < code[i].off <= hi)
      && (code[i].Lc? ==> ro <= code[i].off < rh)
  }

  lemma InsideJoin(a: seq<Ins>, b: seq<Ins>, c: seq<Ins>, d: seq<Ins>, lo: nat, hi: nat, ro: nat, rh: nat)
    requires Inside(a, lo, hi, ro, rh) && Inside(b, lo, hi, ro, rh) && Inside(c, lo, hi, ro, rh) &&
        Inside(d, lo, hi, ro, rh)
    ensures Inside(a + b + c + d, lo, hi, ro, rh)
  {
  }

  lemma InsideWiden(a: seq<Ins>, lo: nat, hi: nat, ro: nat, rh: nat, lo': nat, hi': nat, ro': nat, rh': nat)
    requires Inside(a, lo, hi, ro, rh) && lo' <= lo && hi <= hi' && ro' <= ro && rh <= rh'
    ensures Inside(a, lo', hi', ro', rh')
  {
  }

  lemma LeafInside(opt: bool, e: Expr, at: nat, ro: nat)
    requires e.Leaf? || Folds(opt, e)
    ensures Inside(Text(opt, e, at, ro), at, at + Len(opt, e), ro, ro + |Data(opt, e)|)
  {
  }

  lemma LoneInside(x: Ins, lo: nat, hi: nat, ro: nat, rh: nat)
    requires (x.Sa? || x.Del? ==> lo < x.off <= hi) && !x.Lc?
    ensures Inside([x], lo, hi, ro, rh) && Inside([], lo, hi, ro, rh)
  {
  }

  lemma DataLength(opt: bool, e: Expr)
    requires e.App? && !Folds(opt, e)
    ensures |Data(opt, e)| == |Data(opt, e.l)| + |Data(opt, e.r)|
  {
  }

  /** The offsets in the code of an expression stay inside its code and its strings. */
  lemma {:induction false} OffsetsInside(opt: bool, e: Expr, at: nat, ro: nat)
    ensures Inside(Text(opt, e, at, ro), at, at + Len(opt, e), ro, ro + |Data(opt, e)|)
    decreases e
  {
    hide Inside, Text, Data, Len;
    if e.Leaf? || Folds(opt, e) {
      LeafInside(opt, e, at, ro);
    } else {
      TextParts(opt, e, at, ro);
      DataLength(opt, e);
      var hi, rh := at + Len(opt, e), ro + |Data(opt, e)|;
      var at', ro' := at + Len(opt, e.l) + Gap(e), ro + |Data(opt, e.l)|;
      var l, r := Text(opt, e.l, at, ro), Text(opt, e.r, at', ro');
      OffsetsInside(opt, e.l, at, ro);
      InsideWiden(l, at, at + Len(opt, e.l), ro, ro', at, hi, ro, rh);
      OffsetsInside(opt, e.r, at', ro');
      InsideWiden(r, at', at' + Len(opt, e.r), ro', rh, at, hi, ro, rh);
      LoneInside(if Guarded(e) then Skipper(e, hi) else M.La, at, hi, ro, rh);
      LoneInside(Finisher(e), at, hi, ro, rh);
      InsideJoin(l, if Guarded(e) then [Skipper(e, hi)] else [], r, [Finisher(e)], at, hi, ro, rh);
    }
  }

  /** Programs below 4 GiB have offsets that fit a word. */
  lemma CompiledWords(opt: bool, e: Expr)
    requires Len(opt, e) < WORD && |Data(opt, e)| < WORD
    ensures Words(Text(opt, e, 0, 0))
  {
    hide Text, Data, Len;
    OffsetsInside(opt, e, 0, 0);
  }

  lemma {:induction false} ChainLength(e: Expr)
    requires Chain(e)
    ensures |ChainOut(e)| == Apps(e)
    decreases e
  {
    if e.r.App? {
      ChainLength(e.r);
    }
  }

  lemma {:induction false} DataBound(opt: bool, e: Expr)
    ensures |Data(opt, e)| <= 2 * Apps(e)
    decreases e
  {
    if e.App? {
      if Folds(opt, e) {
        ChainLength(e);
      } else {
        DataLength(opt, e);
        DataBound(opt, e.l);
        DataBound(opt, e.r);
      }
    }
  }

  /** For every source that the lexer lets through, the file can be written, and the loader leaves
      in memory what the correctness theorems speak of exactly on the condition above. */
  lemma LoaderMeets(source: seq<byte>, e: Expr, opt: bool, tce: bool)
    requires Means(source, e)
    ensures
      var code := Text(opt, App(Leaf(E), e), 0, 0);
      && Words(code)
      && (Loaded(code) == Built(e, opt, tce).text
          <==> forall i :: 0 <= i < |code| && |code| <= i + M.SUBST_LEN ==> Survives(code[i]))
  {
    hide Text, Data, Len, Words, Loaded, Survives, Lexer.Scan, Lexer.Writes, Lexer.Render;
    var root := App(Leaf(E), e);
    var gaps, words := Lexer.ScanReads(source, 0);
    assert Size(root) == Size(e) + 2;
    Codegen.TextBound(opt, root);
    DataBound(opt, root);
    CompiledWords(opt, root);
    LoadedExactly(Text(opt, root, 0, 0));
  }

  /** ```d`ki`` */
  const DELAYED: Expr := App(Leaf(D), App(Leaf(K), Leaf(I)))

  lemma DelayedCode()
    ensures Text(true, App(Leaf(E), DELAYED), 0, 0)
         == [M.Del(3), M.Apply(Some(K), Some(I)), M.La, M.Apply(Some(E), None)]
  {
    assert Text(true, DELAYED.r, 1, 0) == [M.Apply(Some(K), Some(I))];
    assert Text(true, DELAYED, 0, 0) == [M.Del(3), M.Apply(Some(K), Some(I)), M.La];
  }

  lemma DelayedFaults(text: seq<Ins>, rodata: seq<byte>, input: seq<byte>)
    requires |text| == 9 && text[5] == M.Del(0x300_0000)
    ensures M.Run(M.Image(text, rodata, true), M.Boot(input), 2).Faulted?
  {
    var im := M.Image(text, rodata, true);
    var s1 := M.Step(im, M.Boot(input));
    assert s1 == M.Running(M.D1d(6), M.Bottom, M.SUBST_LEN + 0x300_0000, Start(input));
    assert M.Run(im, M.Boot(input), 2) == M.Step(im, s1);
  }

  /** The program ```d`ki`` ends at once, but as the literal loop loads it, it jumps out of the text:
      its DEL is among the last five instructions. */
  lemma LoaderCounterexample(input: seq<byte>)
    ensures
      var code := Text(true, App(Leaf(E), DELAYED), 0, 0);
      && Words(code)
      && Ends(DELAYED, input)
      && M.Run(M.Image(Loaded(code), Data(true, App(Leaf(E), DELAYED)), true), M.Boot(input), 2).Faulted?
  {
    DelayedCode();
    hide Text, Data, M.Run;
    var code := Text(true, App(Leaf(E), DELAYED), 0, 0);
    assert Loaded(code)[M.SUBST_LEN] == Swapped(code[0]) == M.Del(0x300_0000);
    DelayedFaults(Loaded(code), Data(true, App(Leaf(E), DELAYED)), input);
    DelayedEnds(input);
  }

  lemma DelayedEnds(input: seq<byte>)
    ensures Ends(DELAYED, input)
  {
    var s := R.Boot(DELAYED, input);
    assert R.Run(s, 4) == R.Step(R.Step(R.Step(R.Step(s))));
    assert RefAt(DELAYED, input, 4).config.Exit?;
  }

  /** What is in memory, instruction by instruction: the shared routine, the program, and in its last
      five instructions every skip offset and every string offset with its bytes reversed. */
  lemma LoadedEach(code: seq<Ins>, i: nat)
    requires Words(code) && i < |code|
    ensures |Loaded(code)| == 5 + |code| && Loaded(code)[..5] == [M.La, M.Xch, M.La, M.La, M.La]
    ensures
      var file := i + 5 >= |code|;
      Loaded(code)[5 + i]
      == match code[i]
         case Sa(off) => M.Sa(if file then Swap(off) else off)
         case Del(off) => M.Del(if file then Swap(off) else off)
         case Lc(off) => M.Lc(if file then Swap(off) else off)
         case _ => code[i]
  {
    hide Swap;
  }

  /** Two strings, the one applied to the other, under `k`: `k``.a`.b`.c`.di`.e`.f`.g`.hi, say. */
  function Strings(xs: seq<byte>, ys: seq<byte>): Expr {
    App(Leaf(K), App(Chained(xs, I), Chained(ys, I)))
  }

  lemma FourFolded(xs: seq<byte>, at: nat, ro: nat)
    requires |xs| == 4
    ensures Folds(true, Chained(xs, I)) && |Data(true, Chained(xs, I))| == 5
    ensures Text(true, Chained(xs, I), at, ro) == [M.Lc(ro), M.Apply(None, Some(I))]
  {
    hide Text, Data, Chained;
    FoldedCode(xs, I, at, ro);
    ChainedOut(xs, I);
  }

  lemma StringsCode(xs: seq<byte>, ys: seq<byte>)
    requires |xs| == 4 && |ys| == 4
    ensures Text(true, App(Leaf(E), Strings(xs, ys)), 0, 0)
         == [M.Lc(0), M.Apply(None, Some(I)), M.Sa(6), M.Lc(5), M.Apply(None, Some(I)), M.La,
             M.Apply(Some(K), None), M.Apply(Some(E), None)]
    ensures |Data(true, App(Leaf(E), Strings(xs, ys)))| == 10
  {
    hide Text, Data, Chained, Folds;
    FourFolded(xs, 0, 0);
    FourFolded(ys, 3, 5);
    StringsText(Chained(xs, I), Chained(ys, I));
  }

  /** Two folded chains, the one applied to the other, under `k` and the guard. */
  lemma StringsText(a: Expr, b: Expr)
    requires Folds(true, a) && Folds(true, b) && |Data(true, a)| == 5
    requires Text(true, a, 0, 0) == [M.Lc(0), M.Apply(None, Some(I))]
    requires Text(true, b, 3, 5) == [M.Lc(5), M.Apply(None, Some(I))]
    ensures
      var root := App(Leaf(E), App(Leaf(K), App(a, b)));
      && Data(true, root) == Data(true, a) + Data(true, b)
      && Text(true, root, 0, 0)
         == [M.Lc(0), M.Apply(None, Some(I)), M.Sa(6), M.Lc(5), M.Apply(None, Some(I)), M.La,
             M.Apply(Some(K), None), M.Apply(Some(E), None)]
  {
    hide Data, Text;
    var pair := App(a, b);
    var kept := App(Leaf(K), pair);
    TextParts(true, pair, 0, 0);
    DataJoin(true, pair);
    Codegen.OneChild(true, kept, 0, 0);
    Codegen.OneChild(true, App(Leaf(E), kept), 0, 0);
  }

  /** The second string offset of such a program comes out of the literal loop as one far outside the
      strings. */
  lemma StringCounterexample(xs: seq<byte>, ys: seq<byte>)
    requires |xs| == 4 && |ys| == 4
    ensures
      var root := App(Leaf(E), Strings(xs, ys));
      var code := Text(true, root, 0, 0);
      && Words(code) && |code| == 8 && code[3] == M.Lc(5)
      && Loaded(code)[8] == M.Lc(0x0500_0000) && |Data(true, root)| == 10
  {
    hide Text, Data, Strings;
    StringsCode(xs, ys);
    var code := Text(true, App(Leaf(E), Strings(xs, ys)), 0, 0);
    LoadedEach(code, 3);
    SwapFive();
  }

  lemma SwapFive()
    ensures Swap(5) == 0x0500_0000 && Swap(0x0102_0304) == 0x0403_0201
  {
  }
}
